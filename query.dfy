/**
 * The query page (app.py:118-183): every stored record is annotated with the
 * date its era-date column denotes; when no date can be read the query stops.
 * Otherwise the records are narrowed to an inclusive date range, then to one
 * person unless "全部" (all) is selected, then, when any category box is
 * ticked, to the records with text in at least one ticked note. Each result
 * row gets a summary (the three notes joined) and its date in era notation,
 * and the totals are summed.
 */
module Query {
  import opened Wrappers
  import opened Text
  import opened Seqs
  import opened EraDate
  import opened Import

  /** The name selector's entry meaning "every person". */
  const AllNames: string := "全部"

  /** The three category boxes: institution, delegate A (莊) and delegate B (陳). */
  datatype Categories = Categories(institution: bool, delegateA: bool, delegateB: bool)

  /** A stored record with its `日期_轉換` column. */
  datatype Annotated = Annotated(rec: Record, parsed: Option<CalendarDate>)

  /** A displayed row: the record, its parsed date, `摘要` and `民國日期`. */
  datatype ResultRow = ResultRow(rec: Record, parsed: Option<CalendarDate>, summary: string, display: string)

  /** The query either stops with a warning or shows rows, their count and the grand total. */
  datatype Outcome =
    | NoRecognisableDates
    | Found(rows: seq<ResultRow>, count: nat, grandTotal: real)

  // ------------------------------------------------------------ row tests

  /** Line 133 for one record. */
  function Annotate(r: Record): Annotated {
    Annotated(r, ParseEraDate(Some(r.date)))
  }

  predicate IsParsed(a: Annotated) {
    a.parsed.Some?
  }

  /** Line 143: both comparisons are false for NaT. */
  predicate InRange(a: Annotated, start: CalendarDate, end: CalendarDate) {
    a.parsed.Some? && DateLeq(start, a.parsed.value) && DateLeq(a.parsed.value, end)
  }

  function InRangeTest(start: CalendarDate, end: CalendarDate): Annotated -> bool {
    (a: Annotated) => InRange(a, start, end)
  }

  /** Line 149: exact equality; a record without a name never matches. */
  function NameTest(name: string): Annotated -> bool {
    (a: Annotated) => a.rec.name == Some(name)
  }

  /** `note.str.strip() != ''`. */
  predicate HasText(note: string) {
    Strip(note) != []
  }

  predicate AnyCategory(c: Categories) {
    c.institution || c.delegateA || c.delegateB
  }

  /** Lines 160-166: the ticked boxes combine with OR. */
  predicate MatchesCategory(a: Annotated, c: Categories) {
    || (c.institution && HasText(a.rec.institutionNote))
    || (c.delegateA && HasText(a.rec.delegateNoteA))
    || (c.delegateB && HasText(a.rec.delegateNoteB))
  }

  function CategoryTest(c: Categories): Annotated -> bool {
    (a: Annotated) => MatchesCategory(a, c)
  }

  /** Lines 169-173 and 177 for one kept record. */
  function ToResult(a: Annotated): (r: ResultRow)
    ensures r.rec == a.rec && r.parsed == a.parsed
    ensures |r.summary| == |a.rec.institutionNote| + |a.rec.delegateNoteA| + |a.rec.delegateNoteB|
    ensures a.parsed.None? ==> r.display == ""
    ensures a.parsed.Some? && EraOffset + 10 <= a.parsed.value.year <= EraOffset + 999 ==>
      IsImportDate(r.display) && ParseEraDate(Some(r.display)) == a.parsed
  {
    var display := match a.parsed case Some(d) => FormatEraDate(d) case None => "";
    assert a.parsed.Some? && EraOffset + 10 <= a.parsed.value.year <= EraOffset + 999 ==>
      IsImportDate(display) && ParseEraDate(Some(display)) == a.parsed
    by {
      if a.parsed.Some? && EraOffset + 10 <= a.parsed.value.year <= EraOffset + 999 {
        FormatIsImportDate(a.parsed.value);
        ParseFormat(a.parsed.value);
      }
    }
    ResultRow(a.rec, a.parsed, a.rec.institutionNote + a.rec.delegateNoteA + a.rec.delegateNoteB, display)
  }

  function TotalOf(r: ResultRow): real {
    r.rec.total
  }

  /** Everything a record must satisfy to be shown. */
  predicate Selected(a: Annotated, start: CalendarDate, end: CalendarDate, name: string, c: Categories) {
    && InRange(a, start, end)
    && (name != AllNames ==> a.rec.name == Some(name))
    && (AnyCategory(c) ==> MatchesCategory(a, c))
  }

  // ---------------------------------------------------------- the query

  /** The stages of the query page, in the order the page applies them. */
  function Evaluate(recs: seq<Record>, start: CalendarDate, end: CalendarDate, name: string, c: Categories): (out: Outcome)
    ensures out.Found? ==> out.count == |out.rows| <= |recs|
  {
    var annotated := Map(Annotate, recs);
    if Count(IsParsed, annotated) == 0 then NoRecognisableDates
    else
      var inRange := Filter(InRangeTest(start, end), annotated);
      var named := if name != AllNames then Filter(NameTest(name), inRange) else inRange;
      var chosen := if AnyCategory(c) then Filter(CategoryTest(c), named) else named;
      var rows := Map(ToResult, chosen);
      Found(rows, |rows|, Sum(Map(TotalOf, rows)))
  }

  /** Lines 133-183 step by step, each `df[mask]` applied by `Select`. */
  method RunQuery(recs: seq<Record>, start: CalendarDate, end: CalendarDate, name: string, c: Categories)
    returns (out: Outcome)
    ensures out == Evaluate(recs, start, end, name, c)
    ensures out.Found? ==> out.count == |out.rows| && out.grandTotal == Sum(Map(TotalOf, out.rows))
  {
    var annotated := Map(Annotate, recs);
    var parsedCount := CountWhere(IsParsed, annotated);
    if parsedCount == 0 {
      return NoRecognisableDates;
    }
    var rangeMask := seq(|annotated|, i requires 0 <= i < |annotated| => InRange(annotated[i], start, end));
    var rows := Select(annotated, rangeMask);
    MaskedIsFilter(annotated, rangeMask, InRangeTest(start, end));
    if name != AllNames {
      var nameMask := seq(|rows|, i requires 0 <= i < |rows| => rows[i].rec.name == Some(name));
      var named := Select(rows, nameMask);
      MaskedIsFilter(rows, nameMask, NameTest(name));
      rows := named;
    }
    if AnyCategory(c) {
      var condition := CategoryCondition(rows, c);
      var chosen := Select(rows, condition);
      MaskedIsFilter(rows, condition, CategoryTest(c));
      rows := chosen;
    }
    var results := Map(ToResult, rows);
    var grandTotal := Total(Map(TotalOf, results));
    out := Found(results, |results|, grandTotal);
  }

  /** Lines 160-166: start from all `False` and OR in each ticked note column. */
  method CategoryCondition(rows: seq<Annotated>, c: Categories) returns (condition: seq<bool>)
    ensures |condition| == |rows|
    ensures forall i :: 0 <= i < |rows| ==> condition[i] == MatchesCategory(rows[i], c)
  {
    condition := seq(|rows|, i => false);
    if c.institution {
      condition := OrHasText(condition, Map((a: Annotated) => a.rec.institutionNote, rows));
    }
    if c.delegateA {
      condition := OrHasText(condition, Map((a: Annotated) => a.rec.delegateNoteA, rows));
    }
    if c.delegateB {
      condition := OrHasText(condition, Map((a: Annotated) => a.rec.delegateNoteB, rows));
    }
  }

  /** `condition |= notes.str.strip() != ''`. */
  method OrHasText(condition: seq<bool>, notes: seq<string>) returns (updated: seq<bool>)
    requires |notes| == |condition|
    ensures |updated| == |condition|
    ensures forall i :: 0 <= i < |condition| ==> updated[i] == (condition[i] || HasText(notes[i]))
  {
    updated := condition;
    for i := 0 to |condition|
      invariant |updated| == |condition|
      invariant forall k :: 0 <= k < i ==> updated[k] == (condition[k] || HasText(notes[k]))
      invariant forall k :: i <= k < |condition| ==> updated[k] == condition[k]
    {
      updated := updated[i := updated[i] || HasText(notes[i])];
    }
  }

  // ---------------------------------------------------------------- lemmas

  /** The query stops exactly when no stored date can be read. */
  lemma QueryStops(recs: seq<Record>, start: CalendarDate, end: CalendarDate, name: string, c: Categories)
    ensures Evaluate(recs, start, end, name, c).NoRecognisableDates? <==>
      forall i :: 0 <= i < |recs| ==> ParseEraDate(Some(recs[i].date)).None?
  {
    CountZero(IsParsed, Map(Annotate, recs));
  }

  /** The three stages together are one filter by `Selected`. */
  lemma {:induction false} QueryIsOneFilter(recs: seq<Record>, start: CalendarDate, end: CalendarDate, name: string, c: Categories)
    requires Evaluate(recs, start, end, name, c).Found?
    ensures Evaluate(recs, start, end, name, c).rows ==
      Map(ToResult, Filter((a: Annotated) => Selected(a, start, end, name, c), Map(Annotate, recs)))
  {
    var annotated := Map(Annotate, recs);
    var sel := (a: Annotated) => Selected(a, start, end, name, c);
    var inRange := Filter(InRangeTest(start, end), annotated);
    var nameOk := (a: Annotated) => InRange(a, start, end) && (name != AllNames ==> a.rec.name == Some(name));
    var named := if name != AllNames then Filter(NameTest(name), inRange) else inRange;
    if name != AllNames {
      FilterFilter(InRangeTest(start, end), NameTest(name), nameOk, annotated);
    } else {
      FilterSame(InRangeTest(start, end), nameOk, annotated);
    }
    if AnyCategory(c) {
      FilterFilter(nameOk, CategoryTest(c), sel, annotated);
    } else {
      FilterSame(nameOk, sel, annotated);
    }
  }

  /** The records a filter keeps from the annotated input are still annotated with their own dates. */
  lemma KeptAreAnnotated(recs: seq<Record>, p: Annotated -> bool)
    ensures forall k :: 0 <= k < |Filter(p, Map(Annotate, recs))| ==>
      Filter(p, Map(Annotate, recs))[k] == Annotate(Filter(p, Map(Annotate, recs))[k].rec)
  {
    var annotated := Map(Annotate, recs);
    var kept := Filter(p, annotated);
    forall k | 0 <= k < |kept| ensures kept[k] == Annotate(kept[k].rec) {
      FilterMembers(p, annotated, kept[k]);
    }
  }

  /**
   * Every shown row satisfies the range, the name and the category
   * conditions, and carries its notes joined as summary and its date in era
   * notation.
   */
  lemma QueryRowsSound(recs: seq<Record>, start: CalendarDate, end: CalendarDate, name: string, c: Categories)
    requires Evaluate(recs, start, end, name, c).Found?
    ensures var rows := Evaluate(recs, start, end, name, c).rows;
      forall k :: 0 <= k < |rows| ==>
        && rows[k].parsed == ParseEraDate(Some(rows[k].rec.date))
        && rows[k].parsed.Some?
        && DateLeq(start, rows[k].parsed.value) && DateLeq(rows[k].parsed.value, end)
        && (name != AllNames ==> rows[k].rec.name == Some(name))
        && (AnyCategory(c) ==> MatchesCategory(Annotate(rows[k].rec), c))
        && rows[k].summary == rows[k].rec.institutionNote + rows[k].rec.delegateNoteA + rows[k].rec.delegateNoteB
        && rows[k].display == FormatEraDate(rows[k].parsed.value)
  {
    var sel := (a: Annotated) => Selected(a, start, end, name, c);
    QueryIsOneFilter(recs, start, end, name, c);
    KeptAreAnnotated(recs, sel);
  }

  /** Every stored record that satisfies the three conditions is shown. */
  lemma QueryRowsComplete(recs: seq<Record>, start: CalendarDate, end: CalendarDate, name: string, c: Categories, i: nat)
    requires Evaluate(recs, start, end, name, c).Found?
    requires i < |recs| && Selected(Annotate(recs[i]), start, end, name, c)
    ensures ToResult(Annotate(recs[i])) in Evaluate(recs, start, end, name, c).rows
  {
    var annotated := Map(Annotate, recs);
    var sel := (a: Annotated) => Selected(a, start, end, name, c);
    QueryIsOneFilter(recs, start, end, name, c);
    var chosen := Filter(sel, annotated);
    FilterMembers(sel, annotated, annotated[i]);
    var k :| 0 <= k < |chosen| && chosen[k] == annotated[i];
    var rows := Map(ToResult, chosen);
    assert rows[k] == ToResult(Annotate(recs[i]));
    assert rows == Evaluate(recs, start, end, name, c).rows;
  }

  /** Shown rows keep the order of the stored records. */
  lemma QueryInOrder(recs: seq<Record>, start: CalendarDate, end: CalendarDate, name: string, c: Categories)
    requires Evaluate(recs, start, end, name, c).Found?
    ensures IsSubsequence(Map((r: ResultRow) => r.rec, Evaluate(recs, start, end, name, c).rows), recs)
  {
    var annotated := Map(Annotate, recs);
    var sel := (a: Annotated) => Selected(a, start, end, name, c);
    var getRec := (a: Annotated) => a.rec;
    QueryIsOneFilter(recs, start, end, name, c);
    var chosen := Filter(sel, annotated);
    FilterIsSubsequence(sel, annotated);
    MapSubsequence(getRec, chosen, annotated);
    assert Map(getRec, annotated) == recs;
    assert Map((r: ResultRow) => r.rec, Map(ToResult, chosen)) == Map(getRec, chosen);
  }

  /**
   * When every row's total is its two amounts (as in every well-formed
   * record) the grand total is the institution amounts plus the personal
   * amounts of the shown rows.
   */
  lemma {:induction false} TotalsSplit(rows: seq<ResultRow>)
    requires forall k :: 0 <= k < |rows| ==> rows[k].rec.total == rows[k].rec.institutionAmount + rows[k].rec.personalAmount
    ensures Sum(Map(TotalOf, rows)) ==
      Sum(Map((r: ResultRow) => r.rec.institutionAmount, rows)) + Sum(Map((r: ResultRow) => r.rec.personalAmount, rows))
  {
    if rows != [] {
      var init := rows[..|rows| - 1];
      var inst := (r: ResultRow) => r.rec.institutionAmount;
      var personal := (r: ResultRow) => r.rec.personalAmount;
      TotalsSplit(init);
      assert Map(TotalOf, rows)[..|rows| - 1] == Map(TotalOf, init);
      assert Map(inst, rows)[..|rows| - 1] == Map(inst, init);
      assert Map(personal, rows)[..|rows| - 1] == Map(personal, init);
    }
  }

  /** A ticked box lets a record through when its note has a non-whitespace character. */
  lemma CategoryMeaning(a: Annotated, c: Categories)
    ensures MatchesCategory(a, c) <==>
      || (c.institution && exists k :: 0 <= k < |a.rec.institutionNote| && !IsSpace(a.rec.institutionNote[k]))
      || (c.delegateA && exists k :: 0 <= k < |a.rec.delegateNoteA| && !IsSpace(a.rec.delegateNoteA[k]))
      || (c.delegateB && exists k :: 0 <= k < |a.rec.delegateNoteB| && !IsSpace(a.rec.delegateNoteB[k]))
  {
    StripNonEmpty(a.rec.institutionNote);
    StripNonEmpty(a.rec.delegateNoteA);
    StripNonEmpty(a.rec.delegateNoteB);
  }

  /**
   * A stored date shows unchanged in the era-date column when it names a
   * calendar day and its era year has no leading zero.
   */
  lemma DisplayMatchesStored(r: Record)
    requires WellFormed(r) && r.date[0] != '0'
    requires ParseEraDate(Some(r.date)).Some?
    ensures ToResult(Annotate(r)).display == r.date
  {
    FormatParse(r.date);
  }
}
