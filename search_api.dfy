/**
 * The search endpoint of the Go server: the `q` and `limit` query
 * parameters, the text query handed to the database, and the copying of the
 * database rows into the response. The database is a parameter: the rows it
 * would answer with, or `None` when it fails.
 */
module SearchApi {
  import opened Wrappers
  import Strs
  import JsNumbers
  import DbClient

  predicate AllDigits(d: string)
  {
    forall k :: 0 <= k < |d| ==> JsNumbers.IsDecDigit(d[k])
  }

  /** The text after an optional leading sign. */
  function Unsigned(s: string): string
  {
    if |s| > 0 && (s[0] == '+' || s[0] == '-') then s[1..] else s
  }

  /** Go `strconv.Atoi`: an optional sign and at least one decimal digit, nothing else. */
  function Atoi(s: string): (r: Option<int>)
    ensures r.Some? ==> s != "" && (s[0] == '+' || s[0] == '-' || JsNumbers.IsDecDigit(s[0]))
    ensures r.Some? && r.value > 0 ==> s[0] != '-'
  {
    var body := Unsigned(s);
    if body != [] && AllDigits(body) then
      var v: int := JsNumbers.DigitsValue(body, 10);
      Some(if |s| > 0 && s[0] == '-' then -v else v)
    else None
  }

  const DefaultLimit: int := 20
  const MaxLimit: int := 100

  /** The limit: the `limit` parameter when it reads as a number from 1 to 100, else 20. */
  function Limit(limitParam: string): (r: int)
    ensures 1 <= r <= MaxLimit
    ensures limitParam == "" ==> r == DefaultLimit
    ensures r != DefaultLimit ==> Atoi(limitParam) == Some(r)
  {
    if limitParam == "" then DefaultLimit
    else
      match Atoi(limitParam)
      case Some(n) => if 0 < n <= MaxLimit then n else DefaultLimit
      case None => DefaultLimit
  }

  /** A number written out reads back. */
  lemma AtoiDecimal(n: int)
    ensures Atoi(JsNumbers.DecimalString(n)) == Some(n)
  {
    var s := JsNumbers.DecimalString(n);
    var m: nat := if n < 0 then -n else n;
    var d := JsNumbers.NatDigits(m);
    var body := if n < 0 then s[1..] else s;
    assert body == d;
  }

  /**
   * A limit written as a number is taken exactly when it is from 1 to 100;
   * any other number leaves the default.
   */
  lemma LimitOverride(n: int)
    ensures Limit(JsNumbers.DecimalString(n)) == (if 1 <= n <= MaxLimit then n else DefaultLimit)
  {
    AtoiDecimal(n);
  }

  /** Any character other than a digit (or a leading sign) makes the text unreadable. */
  lemma AtoiRejects(s: string, k: int)
    requires 0 <= k < |s| && !JsNumbers.IsDecDigit(s[k])
    requires k == 0 ==> s[0] != '+' && s[0] != '-'
    ensures Atoi(s) == None
  {
    var j := if s[0] == '+' || s[0] == '-' then k - 1 else k;
    assert Unsigned(s)[j] == s[k];
  }

  /** A sign and leading zeros are accepted; surrounding white space is not. */
  lemma LimitSpellings()
    ensures Limit("+050") == 50
    ensures Limit(" 50") == DefaultLimit
    ensures Limit("50.0") == DefaultLimit
  {
    assert "+050"[1..] == "050";
    assert AllDigits("050") by {
      assert forall k :: 0 <= k < 3 ==> JsNumbers.IsDecDigit("050"[k]);
    }
    assert JsNumbers.DigitsValue("050", 10) == 50 by {
      assert "050"[..2] == "05";
      assert "05"[..1] == "0";
      assert "0"[..0] == "";
    }
    assert Atoi("+050") == Some(50);
    AtoiRejects(" 50", 0);
    AtoiRejects("50.0", 2);
  }

  /** The text query: the white-space separated words of `q`, all required. */
  function TsQuery(q: string): string
  {
    Strs.Join(Strs.Fields(q), " & ")
  }

  /**
   * The query has no empty term and no term with white space; it is empty
   * exactly when `q` is only white space.
   */
  lemma TsQuerySpec(q: string)
    ensures forall i :: 0 <= i < |Strs.Fields(q)| ==>
              Strs.Fields(q)[i] != "" && forall k :: 0 <= k < |Strs.Fields(q)[i]| ==> !Strs.IsSpace(Strs.Go, Strs.Fields(q)[i][k])
    ensures TsQuery(q) == "" <==> Strs.AllSpace(Strs.Go, q)
  {
    Strs.FieldsShape(q);
    Strs.JoinEmpty(Strs.Fields(q), " & ");
  }

  /** Text whose only white space is the plain space. */
  predicate SpaceOnly(s: string)
  {
    forall k :: 0 <= k < |s| ==> (Strs.IsSpace(Strs.Js, s[k]) || Strs.IsSpace(Strs.Go, s[k])) ==> s[k] == ' '
  }

  lemma {:induction false} WordsAreFields(s: string, cur: string)
    requires SpaceOnly(s)
    requires forall k :: 0 <= k < |cur| ==> !Strs.IsSpace(Strs.Js, cur[k]) && !Strs.IsSpace(Strs.Go, cur[k])
    ensures DbClient.TrimmedWords(Strs.SplitFrom(s, " ", cur)) == Strs.FieldsFrom(s, cur)
    decreases |s|
  {
    if |s| == 0 {
      if cur != [] {
        Strs.TrimNoop(Strs.Js, cur);
        assert [cur][1..] == [];
      }
    } else if s[0] == ' ' {
      assert s[..1] == " ";
      WordsAreFields(s[1..], "");
      var rest := Strs.SplitFrom(s[1..], " ", "");
      assert ([cur] + rest)[1..] == rest;
      if cur != [] {
        Strs.TrimNoop(Strs.Js, cur);
      }
    } else {
      assert s[..1] != " ";
      assert !Strs.IsSpace(Strs.Js, s[0]) && !Strs.IsSpace(Strs.Go, s[0]);
      WordsAreFields(s[1..], cur + [s[0]]);
    }
  }

  /**
   * For text whose only white space is the plain space, the server's query
   * has the same words as the database client's, and the client's is the
   * server's with each word made a prefix match.
   */
  lemma ClientAndServerWords(q: string)
    requires SpaceOnly(q)
    ensures DbClient.Words(q) == Strs.Fields(q)
    ensures DbClient.SearchValue(q) == Strs.Join(DbClient.PrefixTerms(Strs.Fields(q)), " & ")
  {
    WordsAreFields(q, "");
  }

  /** A row of the search view, as the generated query returns it. */
  datatype SearchRow = SearchRow(id: int, kind: string, code: string, name: string, imageUrl: Option<string>, rank: int)

  /** One entry of the response. */
  datatype SearchResult = SearchResult(kind: string, code: string, name: string, imageUrl: Option<string>)

  datatype SearchParams = SearchParams(toTsquery: string, limit: int)

  datatype Body = ErrorBody(error: string) | ResultsBody(results: seq<SearchResult>)

  datatype Response = Response(status: int, body: Body)

  const StatusOK: int := 200
  const StatusBadRequest: int := 400
  const StatusInternalServerError: int := 500

  function ResultOf(row: SearchRow): SearchResult
  {
    SearchResult(row.kind, row.code, row.name, row.imageUrl)
  }

  /** The results copied into a slice of the rows' length, index by index. */
  method ToResults(rows: seq<SearchRow>) returns (results: seq<SearchResult>)
    ensures |results| == |rows|
    ensures forall i :: 0 <= i < |rows| ==> results[i] == ResultOf(rows[i])
  {
    var a := new SearchResult[|rows|](_ => SearchResult("", "", "", None));
    var i := 0;
    while i < |rows|
      invariant 0 <= i <= |rows|
      invariant forall j :: 0 <= j < i ==> a[j] == ResultOf(rows[j])
    {
      a[i] := ResultOf(rows[i]);
      i := i + 1;
    }
    results := a[..];
  }

  /**
   * The handler: an empty `q` is refused before any query; otherwise the
   * database is asked once, and its rows come back in order, or its failure
   * as a server error.
   */
  method Search(q: string, limitParam: string, answer: Option<seq<SearchRow>>) returns (asked: Option<SearchParams>, resp: Response)
    ensures q == "" ==> asked.None? && resp == Response(StatusBadRequest, ErrorBody("q parameter is required"))
    ensures q != "" ==> asked == Some(SearchParams(TsQuery(q), Limit(limitParam)))
    ensures q != "" && answer.None? ==> resp == Response(StatusInternalServerError, ErrorBody("search failed"))
    ensures q != "" && answer.Some? ==>
              resp.status == StatusOK && resp.body.ResultsBody? &&
              |resp.body.results| == |answer.value| &&
              forall i :: 0 <= i < |answer.value| ==> resp.body.results[i] == ResultOf(answer.value[i])
  {
    if q == "" {
      return None, Response(StatusBadRequest, ErrorBody("q parameter is required"));
    }
    var limit := DefaultLimit;
    if limitParam != "" {
      var n := Atoi(limitParam);
      if n.Some? && n.value > 0 && n.value <= MaxLimit {
        limit := n.value;
      }
    }
    var tsquery := Strs.Join(Strs.Fields(q), " & ");
    asked := Some(SearchParams(tsquery, limit));
    if answer.None? {
      return asked, Response(StatusInternalServerError, ErrorBody("search failed"));
    }
    var results := ToResults(answer.value);
    resp := Response(StatusOK, ResultsBody(results));
  }
}
