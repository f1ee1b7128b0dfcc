/** The CSV import and export of the top bar. Import: reject big files, read
    each parsed row (header -> cell text), keep the rows with a date, a
    category, a positive amount and a parseable date, then collapse rows with
    the same `date_amount_category_note` key, last write winning. Export: one
    row per record in ledger order. Dates in cells are parsed by `parseDate`
    (`None` is `Invalid Date`); the text of a number in the dedup key is
    `showNumber`. */
module Csv {
  import opened Values
  import opened Calendar
  import opened Records
  import opened Dedup

  /** One parsed CSV row: header -> cell text. A header the row lacks reads
      as `undefined`. */
  type Row = map<string, string>

  /** Files above 2 MiB are refused before parsing. */
  const MaxFileSize: nat := 2 * 1024 * 1024

  /** A validated import row, as sent to the create request. */
  datatype Candidate = Candidate(date: string, category: string, amount: real, note: string)

  /** `x[h]`. */
  function Cell(row: Row, h: string): Option<string> {
    if h in row then Some(row[h]) else None
  }

  /** `String(x[h])`: a missing cell becomes the text "undefined". */
  function CellText(row: Row, h: string): string {
    if h in row then row[h] else "undefined"
  }

  /** The characters `/[^0-9.-]/g` leaves in place. */
  predicate KeptChar(c: char) {
    IsDigit(c) || c == '.' || c == '-'
  }

  predicate Sanitized(s: string) {
    forall i :: 0 <= i < |s| ==> KeptChar(s[i])
  }

  /** `s.replace(/[^0-9.-]/g, '')`. */
  function Sanitize(s: string): (r: string)
    ensures Sanitized(r)
    ensures IsSubsequence(r, s)
    ensures Sanitized(s) ==> r == s
  {
    if s == [] then []
    else
      var rest := Sanitize(s[1..]);
      assert s == [s[0]] + s[1..];
      if KeptChar(s[0]) then
        var r := [s[0]] + rest;
        assert r[1..] == rest;
        r
      else rest
  }

  /** Sanitising drops only rejected characters: every digit, `.` and `-`
      survives, as often as it occurs. */
  lemma {:induction false} SanitizeKeepsEveryKeptChar(s: string, c: char)
    requires KeptChar(c)
    ensures multiset(Sanitize(s))[c] == multiset(s)[c]
    decreases |s|
  {
    if s != [] {
      SanitizeKeepsEveryKeptChar(s[1..], c);
      assert s == [s[0]] + s[1..];
      if KeptChar(s[0]) {
        assert Sanitize(s) == [s[0]] + Sanitize(s[1..]);
      }
    }
  }

  lemma SanitizeIdempotent(s: string)
    ensures Sanitize(Sanitize(s)) == Sanitize(s)
  {
  }

  /** The length of the run of digits `s` starts with. */
  function DigitRun(s: string): (n: nat)
    ensures n <= |s|
    ensures forall i :: 0 <= i < n ==> IsDigit(s[i])
    ensures n < |s| ==> !IsDigit(s[n])
  {
    if s == [] || !IsDigit(s[0]) then 0
    else
      var n := 1 + DigitRun(s[1..]);
      assert forall i :: 1 <= i < |s| ==> s[i] == s[1..][i - 1];
      n
  }

  function Pow10(n: nat): (p: nat)
    ensures p >= 1
  {
    if n == 0 then 1 else 10 * Pow10(n - 1)
  }

  /** `parseFloat(s)` for text over digits, `.` and `-`: the longest prefix of
      the form `[-] digits [. digits]` (with at least one digit) is read;
      without one the result is NaN (`None`). */
  function ParseDecimal(s: string): (r: Option<real>)
    requires Sanitized(s)
    ensures r.Some? ==> exists i :: 0 <= i < |s| && IsDigit(s[i])
    ensures r.Some? && r.value < 0.0 ==> s[0] == '-'
    ensures |s| > 0 && IsDigit(s[0]) ==> r.Some? && r.value >= 0.0
  {
    var neg := |s| > 0 && s[0] == '-';
    var body := if neg then s[1..] else s;
    var n := DigitRun(body);
    var rest := body[n..];
    var frac := if |rest| > 0 && rest[0] == '.' then rest[1..][..DigitRun(rest[1..])] else "";
    assert forall i :: 0 <= i < |frac| ==> IsDigit(frac[i]);
    if n == 0 && frac == "" then None
    else
      if n > 0 then
        assert IsDigit(body[0]);
        assert body[0] == s[if neg then 1 else 0];
        Magnitude(body, n, frac, neg)
      else
        assert IsDigit(rest[1]) && rest[1] == body[n + 1];
        assert body[n + 1] == s[if neg then n + 2 else n + 1];
        Magnitude(body, n, frac, neg)
  }

  /** Text that a number can start with: a digit, or a point and a digit. */
  predicate StartsNumber(t: string) {
    |t| > 0 && (IsDigit(t[0]) || (t[0] == '.' && |t| > 1 && IsDigit(t[1])))
  }

  /** `parseFloat` reads a number exactly when, after at most one leading
      minus, the text starts with a digit or with a point and a digit; so
      "--5", ".-5" and "-.-5" are NaN. */
  lemma ParseDecimalDefinedIff(s: string)
    requires Sanitized(s)
    ensures ParseDecimal(s).Some? <==> StartsNumber(if |s| > 0 && s[0] == '-' then s[1..] else s)
  {
  }

  /** The signed value of `int.frac`. */
  function Magnitude(body: string, n: nat, frac: string, neg: bool): (r: Option<real>)
    requires n <= |body|
    requires forall i :: 0 <= i < n ==> IsDigit(body[i])
    requires forall i :: 0 <= i < |frac| ==> IsDigit(frac[i])
    ensures r.Some?
    ensures !neg ==> r.value >= 0.0
  {
    var whole := DigitsValue(body[..n]) as real;
    var fraction := DigitsValue(frac) as real / Pow10(|frac|) as real;
    Some(if neg then -(whole + fraction) else whole + fraction)
  }

  /** Natural numbers printed in decimal read back as themselves. */
  lemma ParseDecimalOfNat(n: nat)
    ensures Sanitized(NatToString(n))
    ensures ParseDecimal(NatToString(n)) == Some(n as real)
  {
    var s := NatToString(n);
    assert DigitRun(s) == |s|;
    assert s[..|s|] == s && s[|s|..] == "";
    assert ParseDecimal(s) == Magnitude(s, |s|, "", false);
  }

  /** A leading minus before a natural number negates it. */
  lemma ParseDecimalOfNegatedNat(n: nat)
    ensures Sanitized("-" + NatToString(n))
    ensures ParseDecimal("-" + NatToString(n)) == Some(-(n as real))
  {
    var t := NatToString(n);
    var s := "-" + t;
    assert s[0] == '-' && s[1..] == t;
    assert DigitRun(t) == |t|;
    assert t[..|t|] == t && t[|t|..] == "";
    assert ParseDecimal(s) == Magnitude(t, |t|, "", true);
  }

  /** Digits in front of a text extend its digit run by their number. */
  lemma {:induction false} DigitRunAppend(w: string, u: string)
    requires forall i :: 0 <= i < |w| ==> IsDigit(w[i])
    ensures DigitRun(w + u) == |w| + DigitRun(u)
    decreases |w|
  {
    if w == [] {
      assert w + u == u;
    } else {
      assert (w + u)[0] == w[0];
      assert (w + u)[1..] == w[1..] + u;
      DigitRunAppend(w[1..], u);
    }
  }

  lemma SanitizedAppend(a: string, b: string)
    requires Sanitized(a) && Sanitized(b)
    ensures Sanitized(a + b)
  {
    assert forall i :: |a| <= i < |a + b| ==> (a + b)[i] == b[i - |a|];
  }

  /** The value of `int.frac` with an optional minus sign. */
  function DecimalValue(neg: bool, w: string, f: string): real
    requires forall i :: 0 <= i < |w| ==> IsDigit(w[i])
    requires forall i :: 0 <= i < |f| ==> IsDigit(f[i])
  {
    var v := DigitsValue(w) as real + DigitsValue(f) as real / Pow10(|f|) as real;
    if neg then -v else v
  }

  lemma MagnitudeIsDecimalValue(neg: bool, body: string, w: string, f: string)
    requires forall i :: 0 <= i < |w| ==> IsDigit(w[i])
    requires forall i :: 0 <= i < |f| ==> IsDigit(f[i])
    requires |w| <= |body| && body[..|w|] == w
    ensures Magnitude(body, |w|, f, neg) == Some(DecimalValue(neg, w, f))
  {
  }

  /** The reading of a signed text whose integer digits are `w` and whose
      fraction digits, after the point, are `f`. */
  lemma ParseDecimalOfParts(neg: bool, body: string, w: string, f: string)
    requires Sanitized(body)
    requires forall i :: 0 <= i < |w| ==> IsDigit(w[i])
    requires forall i :: 0 <= i < |f| ==> IsDigit(f[i])
    requires |w| + |f| > 0
    requires |body| > 0 && (neg || body[0] != '-')
    requires DigitRun(body) == |w| && body[..|w|] == w
    requires var rest := body[|w|..];
      f == if |rest| > 0 && rest[0] == '.' then rest[1..][..DigitRun(rest[1..])] else ""
    ensures Sanitized((if neg then "-" else "") + body)
    ensures ParseDecimal((if neg then "-" else "") + body) == Magnitude(body, |w|, f, neg)
  {
    if neg {
      var s := "-" + body;
      SanitizedAppend("-", body);
      assert s[0] == '-' && s[1..] == body;
      assert ParseDecimal(s) == Magnitude(body, |w|, f, true);
    } else {
      assert "" + body == body;
      assert ParseDecimal(body) == Magnitude(body, |w|, f, false);
    }
  }

  /** `[-] int . frac` followed by anything that does not continue the
      fraction reads as its decimal value: the digits before and after the
      point may be empty (not both), and the text after the longest numeric
      prefix is ignored, so "12.50" is 12.5 and "1.2.3" is 1.2. */
  lemma ParseDecimalWithPoint(neg: bool, w: string, f: string, t: string)
    requires forall i :: 0 <= i < |w| ==> IsDigit(w[i])
    requires forall i :: 0 <= i < |f| ==> IsDigit(f[i])
    requires |w| + |f| > 0
    requires Sanitized(t) && (t == [] || !IsDigit(t[0]))
    ensures Sanitized((if neg then "-" else "") + (w + "." + f + t))
    ensures ParseDecimal((if neg then "-" else "") + (w + "." + f + t)) == Some(DecimalValue(neg, w, f))
  {
    var tail := "." + f + t;
    var body := w + tail;
    assert body == w + "." + f + t;
    SanitizedAppend(f, t);
    assert tail == "." + (f + t);
    SanitizedAppend(".", f + t);
    SanitizedAppend(w, tail);
    assert body[0] == if |w| > 0 then w[0] else '.';
    DigitRunAppend(w, tail);
    assert DigitRun(tail) == 0;
    assert body[..|w|] == w && body[|w|..] == tail;
    assert tail[1..] == f + t;
    DigitRunAppend(f, t);
    assert DigitRun(t) == 0;
    assert (f + t)[..|f|] == f;
    assert f == tail[1..][..DigitRun(tail[1..])];
    ParseDecimalOfParts(neg, body, w, f);
    MagnitudeIsDecimalValue(neg, body, w, f);
  }

  /** An integer part with no point after it reads as that integer. */
  lemma ParseDecimalWithoutPoint(neg: bool, w: string, t: string)
    requires forall i :: 0 <= i < |w| ==> IsDigit(w[i])
    requires |w| > 0
    requires Sanitized(t) && (t == [] || (!IsDigit(t[0]) && t[0] != '.'))
    ensures Sanitized((if neg then "-" else "") + (w + t))
    ensures ParseDecimal((if neg then "-" else "") + (w + t)) == Some(DecimalValue(neg, w, ""))
  {
    var body := w + t;
    SanitizedAppend(w, t);
    assert body[0] == w[0];
    DigitRunAppend(w, t);
    assert DigitRun(t) == 0;
    assert body[..|w|] == w && body[|w|..] == t;
    ParseDecimalOfParts(neg, body, w, "");
    MagnitudeIsDecimalValue(neg, body, w, "");
  }

  /** A decimal amount as a CSV holds it. */
  lemma ParseDecimalOfCents()
    ensures ParseDecimal("12.50") == Some(12.5)
  {
    var w, f := "12", "50";
    assert DecimalValue(false, w, f) == 12.5 by {
      assert w[..1] == "1" && f[..1] == "5" && w[..1][..0] == "" && f[..1][..0] == "";
      assert DigitsValue(w[..1]) == 1 && DigitsValue(f[..1]) == 5;
      assert DigitsValue(w) == 12 && DigitsValue(f) == 50;
      assert Pow10(|f|) == 100;
    }
    assert "" + (w + "." + f + "") == "12.50";
    ParseDecimalWithPoint(false, w, f, "");
  }

  /** A second point ends the number. */
  lemma ParseDecimalStopsAtSecondPoint()
    ensures ParseDecimal("1.2.3") == Some(1.2)
  {
    var w, f, t := "1", "2", ".3";
    assert DecimalValue(false, w, f) == 1.2 by {
      assert w[..0] == "" && f[..0] == "";
      assert DigitsValue(w) == 1 && DigitsValue(f) == 2;
      assert Pow10(|f|) == 10;
    }
    assert "" + (w + "." + f + t) == "1.2.3";
    ParseDecimalWithPoint(false, w, f, t);
  }

  /** The amount of a row: `parseFloat(String(x.Amount).replace(/[^0-9.-]/g, ''))`. */
  function AmountOf(row: Row): (r: Option<real>)
    ensures r.Some? ==> exists j :: 0 <= j < |CellText(row, "Amount")| && IsDigit(CellText(row, "Amount")[j])
    ensures Sanitized(CellText(row, "Amount")) ==> r == ParseDecimal(CellText(row, "Amount"))
    ensures r == ParseDecimal(Sanitize(CellText(row, "Amount")))
  {
    var text := CellText(row, "Amount");
    var kept := Sanitize(text);
    SubsequenceMembers(kept, text);
    var r := ParseDecimal(kept);
    assert r.Some? ==> exists j :: 0 <= j < |text| && IsDigit(text[j]) by {
      if r.Some? {
        var i :| 0 <= i < |kept| && IsDigit(kept[i]);
        assert kept[i] in text;
      }
    }
    r
  }

  /** A currency sign is stripped before the amount is read. */
  lemma AmountOfStripsCurrency()
    ensures AmountOf(map["Amount" := "$12.50"]) == Some(12.5)
  {
    var cell := "$12.50";
    assert cell[1..] == "12.50" && !KeptChar(cell[0]);
    assert Sanitize(cell) == "12.50";
    ParseDecimalOfCents();
  }

  /** Row validation and mapping: `None` for a dropped row. */
  function ValidateRow(row: Row, parseDate: string -> Option<CalDate>): (r: Option<Candidate>)
    ensures r.Some? <==>
      Truthy(Cell(row, "Date")) && Truthy(Cell(row, "Category"))
      && AmountOf(row).Some? && AmountOf(row).value > 0.0
      && parseDate(row["Date"]).Some?
    ensures r.Some? ==> (r.value.date == row["Date"] && r.value.category == row["Category"]
      && r.value.amount == AmountOf(row).value
      && r.value.note == Cell(row, "Note").GetOr(""))
  {
    var amount := AmountOf(row);
    if !Truthy(Cell(row, "Date")) || !Truthy(Cell(row, "Category")) || amount.None? || amount.value <= 0.0 then None
    else if parseDate(row["Date"]).None? then None
    else Some(Candidate(row["Date"], row["Category"], amount.value, OrElse(Cell(row, "Note").GetOr(""), "")))
  }

  /** `rows.map(validate)`: the verdict on each row, in row order. */
  function Validations(rows: seq<Row>, parseDate: string -> Option<CalDate>): (v: seq<Option<Candidate>>)
    ensures |v| == |rows|
    ensures forall i :: 0 <= i < |rows| ==> v[i] == ValidateRow(rows[i], parseDate)
  {
    if rows == [] then []
    else
      var v := [ValidateRow(rows[0], parseDate)] + Validations(rows[1..], parseDate);
      assert forall i :: 1 <= i < |rows| ==> rows[i] == rows[1..][i - 1];
      v
  }

  /** The number of present values. */
  function CountSome<T>(os: seq<Option<T>>): (n: nat)
    ensures n <= |os|
  {
    if os == [] then 0 else (if os[0].Some? then 1 else 0) + CountSome(os[1..])
  }

  /** Each value as a present one. */
  function AsSome<T>(xs: seq<T>): (v: seq<Option<T>>)
    ensures |v| == |xs|
    ensures forall i :: 0 <= i < |xs| ==> v[i] == Some(xs[i])
  {
    if xs == [] then [] else [Some(xs[0])] + AsSome(xs[1..])
  }

  /** `.filter(Boolean)` on a list of verdicts: the present values in order. */
  function Present<T(==,!new)>(os: seq<Option<T>>): (r: seq<T>)
    ensures IsSubsequence(AsSome(r), os)
    ensures |r| == CountSome(os)
    ensures forall x :: x in r <==> Some(x) in os
  {
    if os == [] then []
    else
      var rest := Present(os[1..]);
      assert os == [os[0]] + os[1..];
      if os[0].None? then
        assert AsSome(rest) == [] || AsSome(rest)[0] != os[0];
        rest
      else
        var r := [os[0].value] + rest;
        assert r[1..] == rest;
        assert AsSome(r)[0] == os[0] && AsSome(r)[1..] == AsSome(rest);
        r
  }

  /** `rows.map(validate).filter(Boolean)`. */
  function ValidRows(rows: seq<Row>, parseDate: string -> Option<CalDate>): (r: seq<Candidate>)
    ensures |r| <= |rows|
    ensures forall c :: c in r <==> exists i :: 0 <= i < |rows| && ValidateRow(rows[i], parseDate) == Some(c)
    ensures IsSubsequence(AsSome(r), Validations(rows, parseDate))
    ensures |r| == CountSome(Validations(rows, parseDate))
  {
    var vs := Validations(rows, parseDate);
    var r := Present(vs);
    SubsequenceMembers(AsSome(r), vs);
    forall c
      ensures c in r <==> exists i :: 0 <= i < |rows| && ValidateRow(rows[i], parseDate) == Some(c)
    {
      if c in r {
        var i :| 0 <= i < |vs| && vs[i] == Some(c);
      }
      if exists i :: 0 <= i < |rows| && ValidateRow(rows[i], parseDate) == Some(c) {
        var i :| 0 <= i < |rows| && ValidateRow(rows[i], parseDate) == Some(c);
        assert vs[i] == Some(c);
      }
    }
    r
  }

  /** Every survivor has a date, a category and a positive amount. */
  lemma SurvivorsAreWellFormed(rows: seq<Row>, parseDate: string -> Option<CalDate>)
    ensures forall c :: c in ValidRows(rows, parseDate) ==> c.amount > 0.0 && c.date != "" && c.category != ""
  {
    forall c | c in ValidRows(rows, parseDate)
      ensures c.amount > 0.0 && c.date != "" && c.category != ""
    {
      var i :| 0 <= i < |rows| && ValidateRow(rows[i], parseDate) == Some(c);
    }
  }

  /** The dedup key `${date}_${amount}_${category}_${note}`. */
  function DedupKey(c: Candidate, showNumber: real -> string): (k: string)
    ensures |k| == |c.date| + |showNumber(c.amount)| + |c.category| + |c.note| + 3
  {
    c.date + "_" + showNumber(c.amount) + "_" + c.category + "_" + c.note
  }

  /** The key holds three separators besides the underscores of its fields,
      so a separator cannot be told from an underscore inside a field. */
  lemma DedupKeySeparators(c: Candidate, showNumber: real -> string)
    ensures multiset(DedupKey(c, showNumber))['_'] == multiset(c.date)['_'] + multiset(showNumber(c.amount))['_']
      + multiset(c.category)['_'] + multiset(c.note)['_'] + 3
  {
  }

  /** The key function handed to the collapse. */
  function KeyOf(showNumber: real -> string): Candidate -> string {
    c => DedupKey(c, showNumber)
  }

  /** The key is not injective: an underscore inside a field moves the
      boundary, so two different rows can share a key, and the collapse then
      drops the earlier one. */
  lemma DedupKeyNotInjective(showNumber: real -> string)
    ensures var a := Candidate("d", "x_y", 1.0, "z");
      var b := Candidate("d", "x", 1.0, "y_z");
      && a != b
      && DedupKey(a, showNumber) == DedupKey(b, showNumber)
      && Collapse([a, b], KeyOf(showNumber)) == [b]
  {
  }

  /** What choosing and parsing a file ends in. */
  datatype ImportOutcome =
    | NoFile
    | FileTooLarge
    | InvalidCsv
    | Submitted(records: seq<Candidate>)

  /** `handleImport`: `fileSize` is `None` when no file was chosen, `rows` what
      the parser produced. `Submitted` hands the collapsed batch to `importExpenses`. */
  function HandleImport(fileSize: Option<nat>, rows: seq<Row>, parseDate: string -> Option<CalDate>, showNumber: real -> string): (r: ImportOutcome)
    ensures r.NoFile? <==> fileSize.None?
    ensures r.FileTooLarge? <==> fileSize.Some? && fileSize.value > MaxFileSize
    ensures r.InvalidCsv? <==> fileSize.Some? && fileSize.value <= MaxFileSize && ValidRows(rows, parseDate) == []
    ensures r.Submitted? ==> 1 <= |r.records| <= |ValidRows(rows, parseDate)|
    ensures r.Submitted? ==> forall c :: c in r.records ==> c in ValidRows(rows, parseDate)
  {
    if fileSize.None? then NoFile
    else if fileSize.value > MaxFileSize then FileTooLarge
    else
      var valid := ValidRows(rows, parseDate);
      if valid == [] then InvalidCsv
      else
        CollapseKeepsMembers(valid, KeyOf(showNumber));
        Submitted(Collapse(valid, KeyOf(showNumber)))
  }

  /** The submitted batch has one record per distinct key, each at the place
      of its key's first row and equal to its key's last row. */
  lemma SubmittedBatchIsMapSemantics(fileSize: Option<nat>, rows: seq<Row>, parseDate: string -> Option<CalDate>, showNumber: real -> string)
    requires HandleImport(fileSize, rows, parseDate, showNumber).Submitted?
    ensures var valid := ValidRows(rows, parseDate);
      var key := KeyOf(showNumber);
      var out := HandleImport(fileSize, rows, parseDate, showNumber).records;
      && |out| == |KeysOf(valid, key)|
      && (forall i, j :: 0 <= i < j < |out| ==> key(out[i]) != key(out[j]))
      && (forall i, j :: 0 <= i < j < |out| ==> FirstIndex(valid, key, key(out[i])) < FirstIndex(valid, key, key(out[j])))
      && (forall i :: 0 <= i < |out| ==> Occurs(valid, key, key(out[i])) && out[i] == valid[LastIndex(valid, key, key(out[i]))])
  {
    SubmittedIsCollapse(fileSize, rows, parseDate, showNumber);
    CollapseIsMapSemantics(ValidRows(rows, parseDate), KeyOf(showNumber));
  }

  /** A submitted batch is the collapse of the survivors. */
  lemma SubmittedIsCollapse(fileSize: Option<nat>, rows: seq<Row>, parseDate: string -> Option<CalDate>, showNumber: real -> string)
    requires HandleImport(fileSize, rows, parseDate, showNumber).Submitted?
    ensures HandleImport(fileSize, rows, parseDate, showNumber).records == Collapse(ValidRows(rows, parseDate), KeyOf(showNumber))
  {
  }

  /** Two copies of a valid row are imported once. */
  lemma DuplicateRowsImportedOnce(row: Row, size: nat, parseDate: string -> Option<CalDate>, showNumber: real -> string)
    requires size <= MaxFileSize
    requires ValidateRow(row, parseDate).Some?
    ensures HandleImport(Some(size), [row, row], parseDate, showNumber) == Submitted([ValidateRow(row, parseDate).value])
  {
    var c := ValidateRow(row, parseDate).value;
    var vs := Validations([row, row], parseDate);
    assert vs == [Some(c), Some(c)];
    assert vs[1..] == [Some(c)] && vs[1..][1..] == [];
    assert ValidRows([row, row], parseDate) == [c, c];
    CollapseOfRepeat(c, KeyOf(showNumber));
  }

  /** A batch whose rows all lack a date is refused as a whole. */
  lemma MissingDatesAreInvalidCsv(size: nat, rows: seq<Row>, parseDate: string -> Option<CalDate>, showNumber: real -> string)
    requires size <= MaxFileSize
    requires forall i :: 0 <= i < |rows| ==> "Date" !in rows[i]
    ensures HandleImport(Some(size), rows, parseDate, showNumber) == InvalidCsv
  {
    var valid := ValidRows(rows, parseDate);
    assert forall k :: 0 <= k < |valid| ==> valid[k] in valid;
  }

  /** One exported CSV row, `{ Date, Category, Amount, Note }`. */
  datatype ExportRow = ExportRow(date: CalDate, category: string, amount: real, note: string)

  const NothingToExport: string := "No expenses to export"

  /** `handleExport`: refused for an empty ledger, otherwise one row per record
      in ledger order with a missing note written as "". */
  function ExportRows(es: seq<Expense>): (r: Result<seq<ExportRow>>)
    ensures r.Err? <==> es == []
    ensures r.Err? ==> r.message == NothingToExport
    ensures r.Ok? ==> |r.value| == |es|
    ensures r.Ok? ==> forall i :: 0 <= i < |es| ==>
      r.value[i] == ExportRow(es[i].date, es[i].category, es[i].amount, es[i].note.GetOr(""))
  {
    if es == [] then Err(NothingToExport) else Ok(ExportAll(es))
  }

  function ExportAll(es: seq<Expense>): (r: seq<ExportRow>)
    ensures |r| == |es|
    ensures forall i :: 0 <= i < |es| ==>
      r[i] == ExportRow(es[i].date, es[i].category, es[i].amount, es[i].note.GetOr(""))
  {
    if es == [] then []
    else [ExportRow(es[0].date, es[0].category, es[0].amount, OrElse(es[0].note.GetOr(""), ""))] + ExportAll(es[1..])
  }

  /** The cells an exported row becomes once written and read back, with the
      text forms of dates and numbers given by `showDate` and `showNumber`. */
  function Cells(r: ExportRow, showDate: CalDate -> string, showNumber: real -> string): Row {
    map["Date" := showDate(r.date), "Category" := r.category,
        "Amount" := showNumber(r.amount), "Note" := r.note]
  }

  /** Export then import: a record with a category and a positive amount comes
      back as a candidate with the same category, amount and note, provided
      the date and number texts read back as what was written. */
  lemma ExportThenImportRow(e: Expense, showDate: CalDate -> string, showNumber: real -> string, parseDate: string -> Option<CalDate>)
    requires e.category != "" && e.amount > 0.0
    requires showDate(e.date) != "" && parseDate(showDate(e.date)) == Some(e.date)
    requires Sanitized(showNumber(e.amount)) && ParseDecimal(showNumber(e.amount)) == Some(e.amount)
    ensures var row := Cells(ExportAll([e])[0], showDate, showNumber);
      ValidateRow(row, parseDate) == Some(Candidate(showDate(e.date), e.category, e.amount, e.note.GetOr("")))
  {
    var x := ExportAll([e])[0];
    assert x == ExportRow(e.date, e.category, e.amount, e.note.GetOr(""));
    var row := Cells(x, showDate, showNumber);
    assert CellText(row, "Amount") == showNumber(e.amount);
    assert AmountOf(row) == Some(e.amount);
  }
}
