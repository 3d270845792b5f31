/**
 * Show search: the rich-query selector built from a sparse search filter, and
 * what that selector selects. The selector always asks for record type 1 and
 * adds one equality clause for each filter field that is not empty, in the
 * fixed order theatreId, showId, showName, showTime, showDate.
 */
module ShowSearch {
  import opened Wrappers
  import opened Defs

  const SelectorHead := "{\"selector\":{\"recordType\": 1"
  const SelectorTail := "}}"

  /** One equality clause: `,"name":"value"`. */
  function Clause(name: string, value: string): string {
    ",\"" + name + "\":\"" + value + "\""
  }

  /** The clause for one filter field, or nothing when the field is empty. */
  function ClauseIfSet(name: string, value: string): string {
    if value != "" then Clause(name, value) else ""
  }

  /** CreateShowSearchQuery: the selector text handed to the rich query. */
  function CreateShowSearchQuery(q: ShowSearchQuery): (s: string)
    ensures |s| >= |SelectorHead| + |SelectorTail|
    ensures s[..|SelectorHead|] == SelectorHead
    ensures s[|s| - |SelectorTail|..] == SelectorTail
  {
    var clauses :=
      ClauseIfSet("theatreId", q.theatreId) + ClauseIfSet("showId", q.showId)
      + ClauseIfSet("showName", q.showName) + ClauseIfSet("showTime", q.showTime)
      + ClauseIfSet("showDate", q.showDate);
    HeadAndTail(clauses);
    SelectorHead + clauses + SelectorTail
  }

  lemma HeadAndTail(middle: string)
    ensures (SelectorHead + middle + SelectorTail)[..|SelectorHead|] == SelectorHead
    ensures (SelectorHead + middle + SelectorTail)[|SelectorHead| + |middle|..] == SelectorTail
    ensures (SelectorHead + middle + SelectorTail)[|SelectorHead|..|SelectorHead| + |middle|] == middle
  {
  }

  // ---------------------------------------------------------------------------
  // A reference description of the selector: the filter's fields as
  // (JSON name, value) pairs in the builder's order, the non-empty ones kept.

  type Filter = (string, string)

  function Filters(q: ShowSearchQuery): seq<Filter> {
    [("theatreId", q.theatreId), ("showId", q.showId), ("showName", q.showName),
     ("showTime", q.showTime), ("showDate", q.showDate)]
  }

  /** The pairs whose value is not empty, in their original order. */
  function NonEmpty(ps: seq<Filter>): seq<Filter> {
    if ps == [] then []
    else (if ps[0].1 != "" then [ps[0]] else []) + NonEmpty(ps[1..])
  }

  function Render(ps: seq<Filter>): string {
    if ps == [] then "" else Clause(ps[0].0, ps[0].1) + Render(ps[1..])
  }

  lemma {:induction false} RenderAppend(a: seq<Filter>, b: seq<Filter>)
    ensures Render(a + b) == Render(a) + Render(b)
  {
    if a != [] {
      assert (a + b)[0] == a[0];
      assert (a + b)[1..] == a[1..] + b;
      RenderAppend(a[1..], b);
      calc {
        Render(a + b);
        Clause(a[0].0, a[0].1) + Render(a[1..] + b);
        Clause(a[0].0, a[0].1) + (Render(a[1..]) + Render(b));
      }
    } else {
      assert a + b == b;
    }
  }

  lemma {:induction false} NonEmptyAppend(a: seq<Filter>, b: seq<Filter>)
    ensures NonEmpty(a + b) == NonEmpty(a) + NonEmpty(b)
  {
    if a != [] {
      assert (a + b)[0] == a[0];
      assert (a + b)[1..] == a[1..] + b;
      NonEmptyAppend(a[1..], b);
    } else {
      assert a + b == b;
    }
  }

  /** A pair survives NonEmpty exactly when it is there and its value is not empty. */
  lemma {:induction false} NonEmptyMembers(ps: seq<Filter>, p: Filter)
    ensures p in NonEmpty(ps) <==> p in ps && p.1 != ""
  {
    if ps != [] {
      NonEmptyMembers(ps[1..], p);
      assert ps == [ps[0]] + ps[1..];
    }
  }

  function KeepIfSet(name: string, value: string): seq<Filter> {
    if value != "" then [(name, value)] else []
  }

  /** A pair added at the end survives exactly when its value is not empty. */
  lemma NonEmptySnoc(ps: seq<Filter>, p: Filter)
    ensures NonEmpty(ps + [p]) == NonEmpty(ps) + KeepIfSet(p.0, p.1)
  {
    NonEmptyAppend(ps, [p]);
    assert [p][1..] == [];
  }

  lemma ActiveFiltersUnrolled(q: ShowSearchQuery)
    ensures NonEmpty(Filters(q))
         == KeepIfSet("theatreId", q.theatreId) + KeepIfSet("showId", q.showId)
            + KeepIfSet("showName", q.showName) + KeepIfSet("showTime", q.showTime)
            + KeepIfSet("showDate", q.showDate)
  {
    var a, b, c := ("theatreId", q.theatreId), ("showId", q.showId), ("showName", q.showName);
    var d, e := ("showTime", q.showTime), ("showDate", q.showDate);
    assert Filters(q) == [a] + [b] + [c] + [d] + [e];
    NonEmptySnoc([a] + [b] + [c] + [d], e);
    NonEmptySnoc([a] + [b] + [c], d);
    NonEmptySnoc([a] + [b], c);
    NonEmptySnoc([a], b);
    assert [a][1..] == [];
  }

  /**
   * The selector is the fixed head, then exactly one clause per non-empty field
   * in the order theatreId, showId, showName, showTime, showDate, then the tail;
   * an empty field contributes nothing.
   */
  lemma CreateShowSearchQueryClauses(q: ShowSearchQuery)
    ensures CreateShowSearchQuery(q) == SelectorHead + Render(NonEmpty(Filters(q))) + SelectorTail
  {
    var a := KeepIfSet("theatreId", q.theatreId);
    var b := KeepIfSet("showId", q.showId);
    var c := KeepIfSet("showName", q.showName);
    var d := KeepIfSet("showTime", q.showTime);
    var e := KeepIfSet("showDate", q.showDate);
    ActiveFiltersUnrolled(q);
    RenderAppend(a + b + c + d, e);
    RenderAppend(a + b + c, d);
    RenderAppend(a + b, c);
    RenderAppend(a, b);
    RenderKeepIfSet("theatreId", q.theatreId);
    RenderKeepIfSet("showId", q.showId);
    RenderKeepIfSet("showName", q.showName);
    RenderKeepIfSet("showTime", q.showTime);
    RenderKeepIfSet("showDate", q.showDate);
  }

  lemma RenderKeepIfSet(name: string, value: string)
    ensures Render(KeepIfSet(name, value)) == ClauseIfSet(name, value)
  {
    if value != "" {
      assert KeepIfSet(name, value)[1..] == [];
    }
  }

  /** With every field empty the selector asks for shows only. */
  lemma EmptyFilterSelectsAllShows(q: ShowSearchQuery)
    requires q.theatreId == "" && q.showId == "" && q.showName == ""
    requires q.showTime == "" && q.showDate == ""
    ensures CreateShowSearchQuery(q) == "{\"selector\":{\"recordType\": 1}}"
  {
  }

  // ---------------------------------------------------------------------------
  // Reading a selector back: the clauses can be told apart, and the filter
  // recovered, as long as no value contains a double quote.

  function SplitAtQuote(s: string): (r: Option<(string, string)>)
    ensures r.Some? ==> |r.value.1| < |s|
  {
    if s == [] then None
    else if s[0] == '"' then Some(([], s[1..]))
    else
      match SplitAtQuote(s[1..])
      case None => None
      case Some((before, after)) => Some(([s[0]] + before, after))
  }

  /** The clauses of a selector body, as (name, value) pairs. */
  function ParseClauses(s: string): Option<seq<Filter>>
    decreases |s|
  {
    if s == [] then Some([])
    else if |s| < 2 || s[..2] != ",\"" then None
    else
      match SplitAtQuote(s[2..])
      case None => None
      case Some((name, r1)) =>
        if |r1| < 2 || r1[..2] != ":\"" then None
        else
          match SplitAtQuote(r1[2..])
          case None => None
          case Some((value, r2)) =>
            match ParseClauses(r2)
            case None => None
            case Some(ps) => Some([(name, value)] + ps)
  }

  const NoFilter := ShowSearchQuery("", "", "", "", "")

  function SetField(q: ShowSearchQuery, name: string, value: string): Option<ShowSearchQuery> {
    if name == "theatreId" then Some(q.(theatreId := value))
    else if name == "showId" then Some(q.(showId := value))
    else if name == "showName" then Some(q.(showName := value))
    else if name == "showTime" then Some(q.(showTime := value))
    else if name == "showDate" then Some(q.(showDate := value))
    else None
  }

  function SetFields(q: ShowSearchQuery, ps: seq<Filter>): Option<ShowSearchQuery>
    decreases ps
  {
    if ps == [] then Some(q)
    else
      match SetField(q, ps[0].0, ps[0].1)
      case None => None
      case Some(q') => SetFields(q', ps[1..])
  }

  /** The search filter a selector text stands for, if it is one the builder writes. */
  function ParseShowSearchQuery(s: string): Option<ShowSearchQuery> {
    var h, t := |SelectorHead|, |SelectorTail|;
    if |s| < h + t || s[..h] != SelectorHead || s[|s| - t..] != SelectorTail then None
    else
      match ParseClauses(s[h..|s| - t])
      case None => None
      case Some(ps) => SetFields(NoFilter, ps)
  }

  predicate QuoteFree(s: string) {
    '"' !in s
  }

  lemma {:induction false} SplitAtQuoteOf(before: string, after: string)
    requires QuoteFree(before)
    ensures SplitAtQuote(before + "\"" + after) == Some((before, after))
  {
    var s := before + "\"" + after;
    if before != [] {
      assert s[1..] == before[1..] + "\"" + after;
      SplitAtQuoteOf(before[1..], after);
      assert [s[0]] + before[1..] == before;
    } else {
      assert s[1..] == after;
    }
  }

  /** One clause is read off the front of a selector body. */
  lemma ParseClauseOf(name: string, value: string, rest: string)
    requires QuoteFree(name) && QuoteFree(value)
    ensures ParseClauses(Clause(name, value) + rest)
         == match ParseClauses(rest) case None => None case Some(ps) => Some([(name, value)] + ps)
  {
    var s := Clause(name, value) + rest;
    var r1 := ":\"" + value + "\"" + rest;
    assert s == ",\"" + name + "\"" + r1;
    assert s[..2] == ",\"";
    assert s[2..] == name + "\"" + r1;
    SplitAtQuoteOf(name, r1);
    assert r1[..2] == ":\"";
    assert r1[2..] == value + "\"" + rest;
    SplitAtQuoteOf(value, rest);
  }

  lemma {:induction false} ParseRender(ps: seq<Filter>)
    requires forall p | p in ps :: QuoteFree(p.0) && QuoteFree(p.1)
    ensures ParseClauses(Render(ps)) == Some(ps)
  {
    if ps != [] {
      ParseClauseOf(ps[0].0, ps[0].1, Render(ps[1..]));
      ParseRender(ps[1..]);
      assert [(ps[0].0, ps[0].1)] + ps[1..] == ps;
    }
  }

  lemma {:induction false} SetFieldsAppend(q: ShowSearchQuery, a: seq<Filter>, b: seq<Filter>)
    ensures SetFields(q, a + b)
         == match SetFields(q, a) case None => None case Some(q') => SetFields(q', b)
    decreases a
  {
    if a != [] {
      assert (a + b)[0] == a[0];
      assert (a + b)[1..] == a[1..] + b;
      match SetField(q, a[0].0, a[0].1)
      case None =>
      case Some(q') => SetFieldsAppend(q', a[1..], b);
    } else {
      assert a + b == b;
    }
  }

  /** Setting the non-empty fields of `q`, in order, on an empty filter gives `q`. */
  lemma SetActiveFields(q: ShowSearchQuery)
    ensures SetFields(NoFilter, NonEmpty(Filters(q))) == Some(q)
  {
    var a := KeepIfSet("theatreId", q.theatreId);
    var b := KeepIfSet("showId", q.showId);
    var c := KeepIfSet("showName", q.showName);
    var d := KeepIfSet("showTime", q.showTime);
    var e := KeepIfSet("showDate", q.showDate);
    ActiveFiltersUnrolled(q);
    var q1 := NoFilter.(theatreId := q.theatreId);
    var q2 := q1.(showId := q.showId);
    var q3 := q2.(showName := q.showName);
    var q4 := q3.(showTime := q.showTime);
    SetFieldsAppend(NoFilter, a + b + c + d, e);
    SetFieldsAppend(NoFilter, a + b + c, d);
    SetFieldsAppend(NoFilter, a + b, c);
    SetFieldsAppend(NoFilter, a, b);
    SetOne(NoFilter, "theatreId", q.theatreId, q1);
    SetOne(q1, "showId", q.showId, q2);
    SetOne(q2, "showName", q.showName, q3);
    SetOne(q3, "showTime", q.showTime, q4);
    SetOne(q4, "showDate", q.showDate, q);
  }

  lemma SetOne(q: ShowSearchQuery, name: string, value: string, q': ShowSearchQuery)
    requires SetField(q, name, value) == Some(q')
    requires value == "" ==> q' == q
    ensures SetFields(q, KeepIfSet(name, value)) == Some(q')
  {
    if value != "" {
      assert KeepIfSet(name, value)[1..] == [];
    }
  }

  /**
   * Round trip: when no field value contains a double quote, reading the
   * selector back gives exactly the filter it was built from.
   */
  lemma ShowSearchQueryRoundTrip(q: ShowSearchQuery)
    requires QuoteFree(q.theatreId) && QuoteFree(q.showId) && QuoteFree(q.showName)
    requires QuoteFree(q.showTime) && QuoteFree(q.showDate)
    ensures ParseShowSearchQuery(CreateShowSearchQuery(q)) == Some(q)
  {
    var ps := NonEmpty(Filters(q));
    var s := CreateShowSearchQuery(q);
    CreateShowSearchQueryClauses(q);
    HeadAndTail(Render(ps));
    assert s[|SelectorHead|..|s| - |SelectorTail|] == Render(ps);
    forall p | p in ps ensures QuoteFree(p.0) && QuoteFree(p.1) {
      NonEmptyMembers(Filters(q), p);
    }
    ParseRender(ps);
    SetActiveFields(q);
  }

  // ---------------------------------------------------------------------------
  // What the selector selects.

  /** The value of a show's field with the given JSON name. */
  function ShowField(s: Show, name: string): string {
    if name == "theatreId" then s.theatreId
    else if name == "showId" then s.showId
    else if name == "showName" then s.showName
    else if name == "showTime" then s.showTime
    else if name == "showDate" then s.showDate
    else ""
  }

  /** The documents a list of clauses selects: shows whose fields equal every clause. */
  predicate SelectorSelects(ps: seq<Filter>, r: Record) {
    r.ShowRecord? && r.show.recordType == ShowRecordType
    && forall p | p in ps :: ShowField(r.show, p.0) == p.1
  }

  /**
   * The records Get_shows returns: shows (record type 1) equal to the filter on
   * every field the filter sets; an empty field does not constrain.
   */
  predicate ShowMatches(q: ShowSearchQuery, r: Record) {
    r.ShowRecord? && r.show.recordType == ShowRecordType
    && (q.theatreId == "" || r.show.theatreId == q.theatreId)
    && (q.showId == "" || r.show.showId == q.showId)
    && (q.showName == "" || r.show.showName == q.showName)
    && (q.showTime == "" || r.show.showTime == q.showTime)
    && (q.showDate == "" || r.show.showDate == q.showDate)
  }

  /** The built selector's clauses select exactly the shows the filter describes. */
  lemma SelectorMeaning(q: ShowSearchQuery, r: Record)
    ensures SelectorSelects(NonEmpty(Filters(q)), r) <==> ShowMatches(q, r)
  {
    if r.ShowRecord? && r.show.recordType == ShowRecordType {
      if ShowMatches(q, r) {
        MatchesSatisfyClauses(q, r);
      } else {
        UnmatchedFieldHasClause(q, r);
      }
    }
  }

  lemma MatchesSatisfyClauses(q: ShowSearchQuery, r: Record)
    requires ShowMatches(q, r)
    ensures SelectorSelects(NonEmpty(Filters(q)), r)
  {
    forall p | p in NonEmpty(Filters(q)) ensures ShowField(r.show, p.0) == p.1 {
      NonEmptyMembers(Filters(q), p);
    }
  }

  lemma UnmatchedFieldHasClause(q: ShowSearchQuery, r: Record)
    requires r.ShowRecord? && r.show.recordType == ShowRecordType && !ShowMatches(q, r)
    ensures !SelectorSelects(NonEmpty(Filters(q)), r)
  {
    var p :=
      if q.theatreId != "" && r.show.theatreId != q.theatreId then ("theatreId", q.theatreId)
      else if q.showId != "" && r.show.showId != q.showId then ("showId", q.showId)
      else if q.showName != "" && r.show.showName != q.showName then ("showName", q.showName)
      else if q.showTime != "" && r.show.showTime != q.showTime then ("showTime", q.showTime)
      else ("showDate", q.showDate);
    NonEmptyMembers(Filters(q), p);
    assert p in NonEmpty(Filters(q)) && ShowField(r.show, p.0) != p.1;
  }

  /** The keys a rich query with these clauses returns. */
  function SelectedKeys(m: State, ps: seq<Filter>): (ks: set<Key>)
    ensures ks <= m.Keys
    ensures forall k | k in m :: k in ks <==> SelectorSelects(ps, m[k])
  {
    set k | k in m && SelectorSelects(ps, m[k])
  }

  /** The keys the built selector returns are exactly those holding a show the filter describes. */
  lemma SelectedAreMatching(m: State, q: ShowSearchQuery)
    ensures SelectedKeys(m, NonEmpty(Filters(q))) == set k | k in m && ShowMatches(q, m[k])
  {
    forall k | k in m
      ensures k in SelectedKeys(m, NonEmpty(Filters(q))) <==> ShowMatches(q, m[k])
    {
      SelectorMeaning(q, m[k]);
    }
  }
}
