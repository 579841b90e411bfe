/**
 * The two requests the script sends to the picture catalog
 * (`getPictures`, `getPictureInfo`), as the URLs they fetch. The fetch
 * itself is network I/O and is represented only by the request it makes.
 */
module Catalog {
  import opened Text
  import opened Wrappers

  const ListEndpoint := "https://picsum.photos/v2/list"
  const InfoPrefix := "https://picsum.photos/id/"
  const DefaultPage: nat := 1
  const DefaultLimit: nat := 10
  /** `getPictureInfo(id = 0)`: the default id, as text. */
  const DefaultId := "0"

  /** A request the page has issued: a page of the list, or one picture's details. */
  datatype Request = ListPage(page: nat, limit: nat) | PictureInfo(id: string)

  /**
   * The list URL exactly as `getPictures` writes it: the two parameters are
   * separated by ';', not '&'.
   */
  function ListUrlAsWritten(page: nat, limit: nat): string {
    ListEndpoint + "?page=" + Digits(page) + ";limit=" + Digits(limit)
  }

  /** The list URL with the '&' separator the query string needs. */
  function ListUrl(page: nat, limit: nat): string {
    ListEndpoint + "?page=" + Digits(page) + "&limit=" + Digits(limit)
  }

  /** `getPictureInfo(id)`: the detail URL of one picture. */
  function InfoUrl(id: string): string {
    InfoPrefix + id + "/info"
  }

  /** The query of a URL: everything after its first '?', or nothing. */
  function Query(url: string): string {
    var p := Split(url, '?');
    if |p| == 1 then "" else Join(p[1..], '?')
  }

  /** One `name=value` pair; a pair without '=' has an empty value. */
  function Param(part: string): (string, string) {
    var kv := Split(part, '=');
    (kv[0], if |kv| == 1 then "" else Join(kv[1..], '='))
  }

  /**
   * The name-value pairs of a query as form-urlencoded parsing reads them:
   * split on '&', skip empty pieces, split each piece at its first '='.
   * Percent-decoding and '+' are left out: the script's values are digits.
   */
  function Params(pieces: seq<string>): (r: seq<(string, string)>)
    ensures |r| <= |pieces|
  {
    if pieces == [] then []
    else (if pieces[0] == "" then [] else [Param(pieces[0])]) + Params(pieces[1..])
  }

  function QueryParams(query: string): seq<(string, string)> {
    Params(Split(query, '&'))
  }

  /** The value of the first pair named `name`, as `URLSearchParams.get` gives it. */
  function Lookup(params: seq<(string, string)>, name: string): (r: Option<string>)
    ensures r.Some? <==> exists i :: 0 <= i < |params| && params[i].0 == name
    ensures r.Some? ==> exists i :: 0 <= i < |params| && params[i] == (name, r.value) &&
                                   (forall j :: 0 <= j < i ==> params[j].0 != name)
  {
    if params == [] then None
    else if params[0].0 == name then Some(params[0].1)
    else Lookup(params[1..], name)
  }

  lemma NoCharInDigits(s: string, c: char)
    requires IsDigits(s) && !IsDigit(c)
    ensures c !in s
  {
  }

  /** `name=value` with no '=' in the name and none in the value parses as that pair. */
  lemma ParamOf(name: string, value: string)
    requires '=' !in name && '=' !in value
    ensures Param(name + "=" + value) == (name, value)
  {
    SplitCons(name, '=', value);
    SplitNone(value, '=');
    assert Split(name + "=" + value, '=') == [name, value];
    assert Join([value], '=') == value;
  }

  /** The query of a URL with exactly one '?' is what follows it. */
  lemma QueryOf(base: string, rest: string)
    requires '?' !in base && '?' !in rest
    ensures Query(base + "?" + rest) == rest
  {
    SplitCons(base, '?', rest);
    SplitNone(rest, '?');
    assert Split(base + "?" + rest, '?') == [base, rest];
  }

  /** A query of two pairs, none of whose parts holds '&' or '=', parses as those pairs. */
  lemma TwoParams(n1: string, v1: string, n2: string, v2: string)
    requires '&' !in n1 && '&' !in v1 && '&' !in n2 && '&' !in v2
    requires '=' !in n1 && '=' !in v1 && '=' !in n2 && '=' !in v2
    requires n1 != ""
    ensures QueryParams(n1 + "=" + v1 + "&" + n2 + "=" + v2) == [(n1, v1), (n2, v2)]
  {
    var p1, p2 := n1 + "=" + v1, n2 + "=" + v2;
    assert n1 + "=" + v1 + "&" + n2 + "=" + v2 == p1 + ['&'] + p2;
    SplitCons(p1, '&', p2);
    SplitNone(p2, '&');
    ParamOf(n1, v1);
    ParamOf(n2, v2);
    assert p1 != "" && p2 != "";
    assert Params([p2]) == [Param(p2)];
  }

  /** A query of one pair whose value holds '=' once more keeps that '=' in the value. */
  lemma OneParamWithEquals(n: string, a: string, b: string)
    requires '&' !in n && '&' !in a && '&' !in b
    requires '=' !in n && '=' !in a && '=' !in b
    ensures QueryParams(n + "=" + a + "=" + b) == [(n, a + "=" + b)]
  {
    var q := n + "=" + a + "=" + b;
    SplitNone(q, '&');
    assert q == n + ['='] + (a + ['='] + b);
    SplitCons(n, '=', a + ['='] + b);
    SplitCons(a, '=', b);
    SplitNone(b, '=');
    JoinCons(a, [b], '=');
    assert Params([q]) == [Param(q)];
  }

  /** The list URL carries its page and its limit as two separate parameters. */
  lemma ListUrlParams(page: nat, limit: nat)
    ensures QueryParams(Query(ListUrl(page, limit))) == [("page", Digits(page)), ("limit", Digits(limit))]
    ensures Lookup(QueryParams(Query(ListUrl(page, limit))), "limit") == Some(Digits(limit))
    ensures Value(Digits(page)) == page && Value(Digits(limit)) == limit
  {
    var d, l := Digits(page), Digits(limit);
    NoCharInDigits(d, '?'); NoCharInDigits(l, '?');
    NoCharInDigits(d, '&'); NoCharInDigits(l, '&');
    NoCharInDigits(d, '='); NoCharInDigits(l, '=');
    var rest := "page" + "=" + d + "&" + "limit" + "=" + l;
    assert ListUrl(page, limit) == ListEndpoint + "?" + rest;
    QueryOf(ListEndpoint, rest);
    TwoParams("page", d, "limit", l);
    ValueDigits(page);
    ValueDigits(limit);
  }

  /**
   * As written, the list URL has a single parameter, `page`, whose value
   * also holds the text ";limit=10": the query names no `limit` at all.
   */
  lemma ListUrlAsWrittenParams(page: nat, limit: nat)
    ensures QueryParams(Query(ListUrlAsWritten(page, limit)))
         == [("page", Digits(page) + ";limit=" + Digits(limit))]
    ensures Lookup(QueryParams(Query(ListUrlAsWritten(page, limit))), "limit") == None
  {
    var d, l := Digits(page), Digits(limit);
    NoCharInDigits(d, '?'); NoCharInDigits(l, '?');
    NoCharInDigits(d, '&'); NoCharInDigits(l, '&');
    NoCharInDigits(d, '='); NoCharInDigits(l, '=');
    var rest := "page" + "=" + (d + ";limit") + "=" + l;
    assert ListUrlAsWritten(page, limit) == ListEndpoint + "?" + rest;
    QueryOf(ListEndpoint, rest);
    OneParamWithEquals("page", d + ";limit", l);
    assert d + ";limit" + "=" + l == d + ";limit=" + l;
  }

  /** The detail URL names the picture id as its fifth '/'-separated piece. */
  lemma InfoUrlId(id: string)
    requires '/' !in id
    ensures Split(InfoUrl(id), '/') == ["https:", "", "picsum.photos", "id", id, "info"]
  {
    assert InfoUrl(id) == "https:" + "/" + ("" + "/" + ("picsum.photos" + "/" + ("id" + "/" + (id + "/" + "info"))));
    SixPieces("https:", "", "picsum.photos", "id", id, "info");
  }

  lemma SixPieces(a: string, b: string, c: string, d: string, e: string, f: string)
    requires '/' !in a && '/' !in b && '/' !in c && '/' !in d && '/' !in e && '/' !in f
    ensures Split(a + "/" + (b + "/" + (c + "/" + (d + "/" + (e + "/" + f)))), '/') == [a, b, c, d, e, f]
  {
    SplitNone(f, '/');
    SplitCons(e, '/', f);
    SplitCons(d, '/', e + "/" + f);
    SplitCons(c, '/', d + "/" + (e + "/" + f));
    SplitCons(b, '/', c + "/" + (d + "/" + (e + "/" + f)));
    SplitCons(a, '/', b + "/" + (c + "/" + (d + "/" + (e + "/" + f))));
  }
}
