/**
 * The import page (app.py:72-111): rows of an uploaded sheet, already cut to
 * their first eight cells, become expense records. Missing names are carried
 * down, amounts are coerced to numbers, the total is recomputed, every row is
 * stamped with the batch time, rows whose date is not an era date are
 * dropped and counted, and the three notes are trimmed. Accepted records are
 * appended to the ledger, which only grows.
 */
module Import {
  import opened Wrappers
  import opened Text
  import opened Seqs
  import opened EraDate

  /** One sheet row: the eight leading cells, each possibly empty. */
  datatype RawRow = RawRow(
    date: Option<string>,
    name: Option<string>,
    institutionNote: Option<string>,
    delegateNoteA: Option<string>,
    delegateNoteB: Option<string>,
    institutionAmount: Option<string>,
    personalAmount: Option<string>,
    rawTotal: Option<string>)

  /** A row after the column-wide steps, before date filtering and note cleaning. */
  datatype Staged = Staged(
    date: Option<string>,
    name: Option<string>,
    institutionNote: Option<string>,
    delegateNoteA: Option<string>,
    delegateNoteB: Option<string>,
    institutionAmount: real,
    personalAmount: real,
    total: real,
    uploadedAt: string)

  /** A stored expense record: the nine columns of the `petty_cash` table. */
  datatype Record = Record(
    date: string,
    name: Option<string>,
    institutionNote: string,
    delegateNoteA: string,
    delegateNoteB: string,
    institutionAmount: real,
    personalAmount: real,
    total: real,
    uploadedAt: string)

  /** What every imported record satisfies. */
  predicate WellFormed(r: Record) {
    && IsImportDate(r.date)
    && r.total == r.institutionAmount + r.personalAmount
    && Trimmed(r.institutionNote) && Trimmed(r.delegateNoteA) && Trimmed(r.delegateNoteB)
  }

  // ----------------------------------------------------------- forward fill

  /** The last present cell of `cells`, or `None` when every cell is missing. */
  function LastPresent(cells: seq<Option<string>>): Option<string>
  {
    if cells == [] then None
    else if cells[|cells| - 1].Some? then cells[|cells| - 1]
    else LastPresent(cells[..|cells| - 1])
  }

  /** `ffill()`: each cell becomes the last present cell at or above it. */
  function FilledNames(cells: seq<Option<string>>): (r: seq<Option<string>>)
    ensures |r| == |cells|
  {
    seq(|cells|, i requires 0 <= i < |cells| => LastPresent(cells[..i + 1]))
  }

  /** `df['姓名'].ffill()`, carrying the last seen name down the column. */
  method ForwardFill(cells: seq<Option<string>>) returns (filled: seq<Option<string>>)
    ensures filled == FilledNames(cells)
  {
    filled := [];
    var last: Option<string> := None;
    for i := 0 to |cells|
      invariant |filled| == i
      invariant forall k :: 0 <= k < i ==> filled[k] == LastPresent(cells[..k + 1])
      invariant last == LastPresent(cells[..i])
    {
      assert cells[..i + 1][..i] == cells[..i];
      if cells[i].Some? {
        last := cells[i];
      }
      filled := filled + [last];
    }
  }

  lemma {:induction false} LastPresentIsNearest(cells: seq<Option<string>>, v: string)
    ensures LastPresent(cells) == Some(v) <==>
      exists j :: 0 <= j < |cells| && cells[j] == Some(v) && forall k :: j < k < |cells| ==> cells[k].None?
  {
    if cells != [] {
      var init := cells[..|cells| - 1];
      LastPresentIsNearest(init, v);
      if cells[|cells| - 1].None? {
        if exists j :: 0 <= j < |cells| && cells[j] == Some(v) && forall k :: j < k < |cells| ==> cells[k].None? {
          var j :| 0 <= j < |cells| && cells[j] == Some(v) && forall k :: j < k < |cells| ==> cells[k].None?;
          assert init[j] == Some(v);
        }
      }
    }
  }

  lemma {:induction false} LastPresentMissing(cells: seq<Option<string>>)
    ensures LastPresent(cells).None? <==> forall k :: 0 <= k < |cells| ==> cells[k].None?
  {
    if cells != [] {
      var init := cells[..|cells| - 1];
      LastPresentMissing(init);
      assert forall k :: 0 <= k < |init| ==> init[k] == cells[k];
    }
  }

  /**
   * After filling, row `i` holds name `v` exactly when `v` is the nearest
   * present name at or above row `i`; a present name stays as it is.
   */
  lemma FilledIsNearestAbove(cells: seq<Option<string>>, i: nat, v: string)
    requires i < |cells|
    ensures FilledNames(cells)[i] == Some(v) <==>
      exists j :: 0 <= j <= i && cells[j] == Some(v) && forall k :: j < k <= i ==> cells[k].None?
  {
    var pre := cells[..i + 1];
    LastPresentIsNearest(pre, v);
    assert forall k :: 0 <= k <= i ==> pre[k] == cells[k];
  }

  /** Rows above the first present name stay without a name. */
  lemma FilledMissing(cells: seq<Option<string>>, i: nat)
    requires i < |cells|
    ensures FilledNames(cells)[i].None? <==> forall k :: 0 <= k <= i ==> cells[k].None?
  {
    var pre := cells[..i + 1];
    LastPresentMissing(pre);
    assert forall k :: 0 <= k <= i ==> pre[k] == cells[k];
  }

  // -------------------------------------------------------------- amounts

  function Pow10(n: nat): (r: nat)
    ensures r >= 1
  {
    if n == 0 then 1 else 10 * Pow10(n - 1)
  }

  /** An unsigned decimal: `ddd`, `ddd.`, `ddd.ddd` or `.ddd`. */
  function ParseUnsigned(s: string): (r: Option<real>)
    ensures r.Some? ==> r.value >= 0.0
  {
    var a := DigitRun(s);
    if a == |s| then
      if a == 0 then None else Some(Value(s) as real)
    else if s[a] != '.' then None
    else
      var frac := s[a + 1..];
      if DigitRun(frac) != |frac| || (a == 0 && frac == []) then None
      else
        assert frac[..|frac|] == frac;
        Some(Value(s[..a]) as real + Value(frac) as real / Pow10(|frac|) as real)
  }

  /** A decimal number with an optional sign, or `None` when `s` is not one. */
  function ParseDecimal(s: string): (r: Option<real>)
    ensures r.Some? ==> s != [] && (r.value < 0.0 ==> s[0] == '-')
    ensures r.Some? && s[0] == '-' ==> r.value <= 0.0
  {
    if s != [] && (s[0] == '+' || s[0] == '-') then
      match ParseUnsigned(s[1..])
      case None => None
      case Some(v) => Some(if s[0] == '-' then -v else v)
    else ParseUnsigned(s)
  }

  /** `pd.to_numeric(cell, errors='coerce').fillna(0)`. */
  function CoerceAmount(cell: Option<string>): (r: real)
    ensures r != 0.0 ==> cell.Some? && ParseDecimal(cell.value) == Some(r)
    ensures r < 0.0 ==> cell.Some? && cell.value[0] == '-'
  {
    match cell
    case None => 0.0
    case Some(s) => ParseDecimal(s).GetOr(0.0)
  }

  /** A whole number is read as itself. */
  lemma CoerceWholeNumber(n: nat)
    ensures CoerceAmount(Some(NatToString(n))) == n as real
    ensures CoerceAmount(Some("-" + NatToString(n))) == -(n as real)
  {
    var s := NatToString(n);
    DigitRunOfDigits(s, []);
    assert s + [] == s && s[..|s|] == s;
    assert ("-" + s)[1..] == s;
  }

  /** An amount with two decimals is read as whole units plus hundredths. */
  lemma CoerceCents(n: nat, c: nat)
    requires c < 100
    ensures CoerceAmount(Some(NatToString(n) + "." + Pad2(c))) == n as real + c as real / 100.0
  {
    var whole, cents := NatToString(n), Pad2(c);
    var s := whole + "." + cents;
    DigitRunOfDigits(whole, "." + cents);
    assert s == whole + ("." + cents);
    assert s[..|whole|] == whole && s[|whole| + 1..] == cents;
    DigitRunOfDigits(cents, []);
    assert cents + [] == cents;
    assert Pow10(2) == 100;
  }

  /** Missing and non-numeric cells become 0 instead of raising. */
  lemma CoerceNonNumeric()
    ensures CoerceAmount(None) == 0.0
    ensures CoerceAmount(Some("N/A")) == 0.0
    ensures CoerceAmount(Some("")) == 0.0
  {
    assert DigitRun("N/A") == 0;
  }

  // ------------------------------------------------------------- pipeline

  function NameColumn(rows: seq<RawRow>): seq<Option<string>>
  {
    Map((row: RawRow) => row.name, rows)
  }

  /** Lines 86-90 for one row: filled name, coerced amounts, recomputed total, batch stamp. */
  function StageRow(row: RawRow, name: Option<string>, stamp: string): Staged
  {
    var inst := CoerceAmount(row.institutionAmount);
    var personal := CoerceAmount(row.personalAmount);
    Staged(row.date, name, row.institutionNote, row.delegateNoteA, row.delegateNoteB,
           inst, personal, inst + personal, stamp)
  }

  /** Every row of the upload after lines 86-90, dropped or not. */
  function StagedRows(rows: seq<RawRow>, stamp: string): (r: seq<Staged>)
    ensures |r| == |rows|
  {
    var names := FilledNames(NameColumn(rows));
    seq(|rows|, i requires 0 <= i < |rows| => StageRow(rows[i], names[i], stamp))
  }

  /** The row's total is the sum of its amounts and it carries the batch stamp. */
  function StampedSum(stamp: string): Staged -> bool {
    (s: Staged) => s.total == s.institutionAmount + s.personalAmount && s.uploadedAt == stamp
  }

  /** Lines 95-96: the date cell is present and matches `^\d{2,3}\.\d{2}\.\d{2}$`. */
  predicate HasImportDate(s: Staged) {
    s.date.Some? && IsImportDate(s.date.value)
  }

  predicate LacksImportDate(s: Staged) {
    !HasImportDate(s)
  }

  /** `fillna('').astype(str).str.strip()` on one note cell. */
  function CleanNote(cell: Option<string>): (r: string)
    ensures Trimmed(r)
  {
    Strip(cell.GetOr(""))
  }

  /** Lines 101-102 and 107 for one kept row. */
  function FinishRow(s: Staged): Record
  {
    Record(s.date.GetOr(""), s.name, CleanNote(s.institutionNote), CleanNote(s.delegateNoteA),
           CleanNote(s.delegateNoteB), s.institutionAmount, s.personalAmount, s.total, s.uploadedAt)
  }

  /** The rows that survive the date filter (line 94), in sheet order. */
  function Kept(rows: seq<RawRow>, stamp: string): seq<Staged>
  {
    Filter(HasImportDate, StagedRows(rows, stamp))
  }

  /** The records an upload yields. */
  function Accepted(rows: seq<RawRow>, stamp: string): (r: seq<Record>)
    ensures |r| <= |rows|
    ensures forall i :: 0 <= i < |r| ==> WellFormed(r[i]) && r[i].uploadedAt == stamp
  {
    var kept := Kept(rows, stamp);
    FilterKeeps(HasImportDate, StampedSum(stamp), StagedRows(rows, stamp));
    Map(FinishRow, kept)
  }

  /** Lines 72-102: the accepted records and the number of rows skipped. */
  method Normalise(rows: seq<RawRow>, stamp: string) returns (accepted: seq<Record>, skipped: nat)
    ensures accepted == Accepted(rows, stamp)
    ensures skipped == |rows| - |accepted|
    ensures skipped == Count(LacksImportDate, StagedRows(rows, stamp))
  {
    var names := ForwardFill(NameColumn(rows));
    var staged := seq(|rows|, i requires 0 <= i < |rows| => StageRow(rows[i], names[i], stamp));
    var totalRows := |staged|;
    var mask := seq(|staged|, i requires 0 <= i < |staged| => HasImportDate(staged[i]));
    var kept := Select(staged, mask);
    MaskedIsFilter(staged, mask, HasImportDate);
    var validRows := |kept|;
    skipped := totalRows - validRows;
    accepted := CleanNotes(kept);
    SkippedRows(rows, stamp);
  }

  /** The note-cleaning loop of lines 101-102, one row at a time. */
  method CleanNotes(kept: seq<Staged>) returns (records: seq<Record>)
    ensures records == Map(FinishRow, kept)
  {
    records := [];
    for i := 0 to |kept|
      invariant records == Map(FinishRow, kept[..i])
    {
      records := records + [FinishRow(kept[i])];
    }
    assert kept[..|kept|] == kept;
  }

  // ---------------------------------------------------------------- lemmas

  /** Accepted records keep the order of the rows they come from. */
  lemma AcceptedInOrder(rows: seq<RawRow>, stamp: string)
    ensures IsSubsequence(Accepted(rows, stamp), Map(FinishRow, StagedRows(rows, stamp)))
  {
    FilterIsSubsequence(HasImportDate, StagedRows(rows, stamp));
    MapSubsequence(FinishRow, Kept(rows, stamp), StagedRows(rows, stamp));
  }

  /** Row `i` survives the date filter exactly when its date cell is present and import-shaped. */
  lemma AcceptedIff(rows: seq<RawRow>, stamp: string, i: nat)
    requires i < |rows|
    ensures StagedRows(rows, stamp)[i] in Kept(rows, stamp) <==>
      rows[i].date.Some? && IsImportDate(rows[i].date.value)
  {
    FilterMembers(HasImportDate, StagedRows(rows, stamp), StagedRows(rows, stamp)[i]);
  }

  /** The skipped count is the number of rows without an import-shaped date. */
  lemma SkippedRows(rows: seq<RawRow>, stamp: string)
    ensures |Accepted(rows, stamp)| + Count(LacksImportDate, StagedRows(rows, stamp)) == |rows|
  {
    var staged := StagedRows(rows, stamp);
    FilterCount(HasImportDate, staged);
    CountSplit(HasImportDate, LacksImportDate, staged);
  }

  /**
   * Names are filled over the whole upload before any row is dropped, so a
   * name on a row the date filter drops still fills the kept rows below it.
   */
  lemma NameFilledBeforeFilter(rows: seq<RawRow>, stamp: string, j: nat, i: nat, v: string)
    requires j < i < |rows|
    requires rows[j].name == Some(v) && forall k :: j < k <= i ==> rows[k].name.None?
    requires !(rows[j].date.Some? && IsImportDate(rows[j].date.value))
    requires rows[i].date.Some? && IsImportDate(rows[i].date.value)
    ensures FinishRow(StagedRows(rows, stamp)[i]) in Accepted(rows, stamp)
    ensures FinishRow(StagedRows(rows, stamp)[i]).name == Some(v)
  {
    var staged := StagedRows(rows, stamp);
    var names := NameColumn(rows);
    assert forall k :: j < k <= i ==> names[k].None?;
    FilledIsNearestAbove(names, i, v);
    FilterMembers(HasImportDate, staged, staged[i]);
    var kept := Kept(rows, stamp);
    var n :| 0 <= n < |kept| && kept[n] == staged[i];
    assert Accepted(rows, stamp)[n] == FinishRow(staged[i]);
  }

  /** Each row's amounts, total and stamp, whatever its raw total cell holds. */
  lemma StagedAmounts(rows: seq<RawRow>, stamp: string, i: nat)
    requires i < |rows|
    ensures var s := StagedRows(rows, stamp)[i];
      && s.institutionAmount == CoerceAmount(rows[i].institutionAmount)
      && s.personalAmount == CoerceAmount(rows[i].personalAmount)
      && s.total == s.institutionAmount + s.personalAmount
      && s.uploadedAt == stamp
  {
  }

  // ---------------------------------------------------------------- ledger

  /**
   * The `petty_cash` table seen as an append-only sequence of records
   * (lines 43-61, 106-108 and 118).
   */
  class Ledger {
    var records: seq<Record>

    ghost predicate Valid()
      reads this
    {
      forall i :: 0 <= i < |records| ==> WellFormed(records[i])
    }

    constructor ()
      ensures Valid() && records == []
    {
      records := [];
    }

    /** Normalises an upload and appends what it accepts (the confirm button). */
    method Import(rows: seq<RawRow>, stamp: string) returns (stored: nat, skipped: nat)
      requires Valid()
      modifies this
      ensures Valid()
      ensures records == old(records) + Accepted(rows, stamp)
      ensures stored == |Accepted(rows, stamp)| && stored + skipped == |rows|
    {
      var accepted;
      accepted, skipped := Normalise(rows, stamp);
      records := records + accepted;
      stored := |accepted|;
    }

    /** `SELECT * FROM petty_cash`. */
    method ReadAll() returns (all: seq<Record>)
      requires Valid()
      ensures all == records
      ensures forall i :: 0 <= i < |all| ==> WellFormed(all[i])
    {
      all := records;
    }
  }
}
