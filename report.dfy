/**
 * The collection-report parser: from the header row and the data rows of the
 * report (already split into cells) to one typed record per data row.
 * Fixed columns: first name, last name, email, amount donated, amount due,
 * amount pledged; every further column is one adjustment type.
 */
module Report {
  import opened Results
  import opened Text
  import opened Decimal
  import opened Domain

  /** The error `strconv.ParseFloat` reports, carrying the text it could not read. */
  datatype ParseError = InvalidNumber(text: string)

  const PlaceholderDomain: string := "@gmail.com"

  /** Every data row has the header's arity and at least the six fixed columns. */
  predicate Rectangular(header: seq<string>, rows: seq<seq<string>>) {
    forall i | 0 <= i < |rows| :: |rows[i]| == |header| && |rows[i]| >= 6
  }

  /** The slug of an adjustment name: spaces become hyphens, then everything is lower-cased. */
  function Sluggify(value: string): (slug: string)
    ensures |slug| == |value|
    ensures ' ' !in slug
    ensures forall i | 0 <= i < |slug| :: !IsUpper(slug[i])
  {
    Lower(Replace(value, ' ', '-'))
  }

  lemma SluggifyIdempotent(value: string)
    ensures Sluggify(Sluggify(value)) == Sluggify(value)
  {
    var s := Sluggify(value);
    assert Replace(s, ' ', '-') == s;
    LowerProperties(Replace(value, ' ', '-'));
  }

  /**
   * An amount cell: thousands separators are dropped, a blank cell reads as 0,
   * anything else must be a decimal number.
   */
  function ParseAmount(cell: string): (r: Result<real, ParseError>)
    ensures Remove(cell, ',') == [] ==> r == Success(0.0)
    ensures r.Failure? <==> Remove(cell, ',') != [] && ParseDecimal(Remove(cell, ',')).None?
  {
    var raw := Remove(cell, ',');
    if raw == [] then Success(0.0)
    else match ParseDecimal(raw)
      case Some(v) => Success(v)
      case None => Failure(InvalidNumber(raw))
  }

  lemma {:induction false} RemoveIdempotent(s: string, c: char)
    ensures Remove(Remove(s, c), c) == Remove(s, c)
  {
  }

  /** Commas anywhere in an amount cell make no difference to what it parses to. */
  lemma AmountIgnoresCommas(cell: string)
    ensures ParseAmount(cell) == ParseAmount(Remove(cell, ','))
  {
    RemoveIdempotent(cell, ',');
  }

  lemma ThousandsSeparatorExample()
    ensures ParseAmount("1,234.50") == Success(1234.5)
  {
    CommaExample();
    DecimalExample();
  }

  lemma CommaExample()
    ensures Remove("1,234.50", ',') == "1234.50"
  {
    var head, comma, tail := "1", ",", "234.50";
    CommaExampleParts();
    RemoveAppend(head, comma + tail, ',');
    RemoveAppend(comma, tail, ',');
    assert Remove(head, ',') == head && Remove(tail, ',') == tail;
  }

  lemma CommaExampleParts()
    ensures "1,234.50" == "1" + ("," + "234.50")
    ensures "1" + ([] + "234.50") == "1234.50"
    ensures Remove(",", ',') == []
    ensures ',' !in "1" && ',' !in "234.50"
  {
    assert "," + "234.50" == ",234.50";
    assert "1" + ",234.50" == "1,234.50";
    assert [] + "234.50" == "234.50";
    assert "1" + "234.50" == "1234.50";
    assert ","[1..] == [];
    assert Remove(",", ',') == [] + Remove([], ',');
  }

  lemma DecimalExample()
    ensures ParseDecimal("1234.50") == Some(1234.5)
  {
    var s := "1234.50";
    assert s[4] == '.';
    assert forall i | 0 <= i < 4 :: s[i] != '.';
    assert IndexOf(s, '.') == 4;
    var whole, fraction := s[..4], s[5..];
    assert whole == "1234" && fraction == "50";
    assert AllDigits(whole) && AllDigits(fraction);
    NaturalExamples();
    assert Pow10(2) == 100 by {
      assert Pow10(1) == 10;
    }
    assert Natural(whole) as real + Natural(fraction) as real / Pow10(|fraction|) as real == 1234.5;
    assert Unsigned(s) == Some(1234.5);
  }

  lemma NaturalExamples()
    ensures Natural("1234") == 1234 && Natural("50") == 50
  {
    assert "1234"[..3] == "123" && "123"[..2] == "12" && "12"[..1] == "1" && "1"[..0] == "";
    assert Natural("1") == 1;
    assert Natural("12") == 12;
    assert Natural("123") == 123;
    assert "50"[..1] == "5" && "5"[..0] == "";
    assert Natural("5") == 5;
  }

  /** The loop's way of reading a cell (blank becomes "0") agrees with `ParseAmount`. */
  lemma AmountCell(cell: string)
    ensures var raw := Remove(cell, ',');
            var text := if raw == [] then "0" else raw;
            && (ParseDecimal(text).None? <==> ParseAmount(cell).Failure?)
            && (ParseDecimal(text).None? ==> ParseAmount(cell) == Failure(InvalidNumber(text)))
            && (ParseDecimal(text).Some? ==> ParseAmount(cell) == Success(ParseDecimal(text).value))
  {
    assert Natural("0") == 0 by {
      assert "0"[..0] == "";
    }
    assert AllDigits("0");
  }

  /** The amount an adjustment cell contributes, if any. */
  function AdjustmentAmount(value: string): (r: Option<real>)
    ensures r.Some? ==> r.value > 0.0 && value != [] && ParseDecimal(value) == Some(r.value)
    ensures value != [] && ParseDecimal(value).Some? && ParseDecimal(value).value > 0.0 ==> r == ParseDecimal(value)
  {
    if value == [] then None
    else
      var amount := ParseDecimal(value).GetOr(0.0);  // a syntax error reads as 0
      if amount > 0.0 then Some(amount) else None
  }

  /** What one trailing column contributes: nothing, or one adjustment named after its header. */
  function Column(name: string, value: string): seq<Adjustment> {
    match AdjustmentAmount(value)
    case Some(amount) => [Adjustment(name, Sluggify(name), amount)]
    case None => []
  }

  /** A "Spring Formal" column holding 25 credits 25 under the slug "spring-formal". */
  lemma SpringFormalExample()
    ensures Column("Spring Formal", "25") == [Adjustment("Spring Formal", "spring-formal", 25.0)]
  {
    var name := "Spring Formal";
    var replaced := Replace(name, ' ', '-');
    assert replaced == "Spring-Formal";
    assert Lower(replaced) == "spring-formal";
    assert AllDigits("25");
    assert Natural("25") == 25 by {
      assert "25"[..1] == "2" && "2"[..0] == "";
    }
  }

  /** The adjustments of one row: the columns' contributions, in column order. */
  function AdjustmentsFrom(names: seq<string>, values: seq<string>): seq<Adjustment>
    requires |values| <= |names|
  {
    if values == [] then []
    else Column(names[0], values[0]) + AdjustmentsFrom(names[1..], values[1..])
  }

  /** No more adjustments than trailing cells; each has a positive amount and the slug of its name. */
  lemma {:induction false} AdjustmentsValid(names: seq<string>, values: seq<string>)
    requires |values| <= |names|
    ensures |AdjustmentsFrom(names, values)| <= |values|
    ensures forall a | a in AdjustmentsFrom(names, values) :: a.amount > 0.0 && a.slug == Sluggify(a.displayName)
  {
    if values != [] {
      AdjustmentsValid(names[1..], values[1..]);
    }
  }

  lemma {:induction false} AdjustmentsAppend(n1: seq<string>, v1: seq<string>, n2: seq<string>, v2: seq<string>)
    requires |v1| == |n1| && |v2| <= |n2|
    ensures AdjustmentsFrom(n1 + n2, v1 + v2) == AdjustmentsFrom(n1, v1) + AdjustmentsFrom(n2, v2)
  {
    if v1 != [] {
      assert (n1 + n2)[1..] == n1[1..] + n2 && (v1 + v2)[1..] == v1[1..] + v2;
      AdjustmentsAppend(n1[1..], v1[1..], n2, v2);
    } else {
      assert n1 + n2 == n2 && v1 + v2 == v2;
    }
  }

  /**
   * Column `i` contributes exactly `Column(names[i], values[i])`, placed after
   * everything the columns before it contribute and before everything after.
   */
  lemma ColumnInPlace(names: seq<string>, values: seq<string>, i: nat)
    requires |values| == |names| && i < |values|
    ensures AdjustmentsFrom(names, values)
         == AdjustmentsFrom(names[..i], values[..i]) + Column(names[i], values[i])
            + AdjustmentsFrom(names[i + 1..], values[i + 1..])
  {
    assert names == names[..i] + names[i..] && values == values[..i] + values[i..];
    AdjustmentsAppend(names[..i], values[..i], names[i..], values[i..]);
    assert names[i..][1..] == names[i + 1..] && values[i..][1..] == values[i + 1..];
  }

  /** Every adjustment comes from a non-blank, positive column and carries that column's header. */
  lemma {:induction false} AdjustmentOrigin(names: seq<string>, values: seq<string>, a: Adjustment)
    requires |values| <= |names|
    requires a in AdjustmentsFrom(names, values)
    ensures exists i | 0 <= i < |values| ::
      a.displayName == names[i] && values[i] != [] && ParseDecimal(values[i]) == Some(a.amount)
  {
    if a in Column(names[0], values[0]) {
      assert a.displayName == names[0];
    } else {
      AdjustmentOrigin(names[1..], values[1..], a);
      var i :| 0 <= i < |values| - 1 && a.displayName == names[1..][i] && values[1..][i] != []
        && ParseDecimal(values[1..][i]) == Some(a.amount);
      assert a.displayName == names[i + 1];
    }
  }

  /** A cell with a thousands separator, a zero or a negative amount contributes nothing. */
  lemma DroppedCells(name: string, value: string)
    ensures ',' in value ==> Column(name, value) == []
    ensures ParseDecimal(value).Some? && ParseDecimal(value).value <= 0.0 ==> Column(name, value) == []
  {
    if ',' in value && AdjustmentAmount(value).Some? {
      NoSeparatorsAccepted(value, ',');
    }
  }

  /** The email of a record: the cell, verbatim, or a placeholder built from the names when blank. */
  function EmailFor(firstName: string, lastName: string, email: string): string {
    if email == [] then firstName + "." + lastName + PlaceholderDomain else email
  }

  /** One data row to one record. */
  function ParseRow(header: seq<string>, row: seq<string>): Result<CollectionRecord, ParseError>
    requires |row| >= 6 && |header| == |row|
  {
    match ParseAmount(row[3])
    case Failure(e) => Failure(e)
    case Success(donated) =>
      match ParseAmount(row[4])
      case Failure(e) => Failure(e)
      case Success(due) =>
        match ParseAmount(row[5])
        case Failure(e) => Failure(e)
        case Success(pledged) =>
          Success(CollectionRecord(row[0], row[1], EmailFor(row[0], row[1], row[2]),
                                   donated, due, pledged, AdjustmentsFrom(header[6..], row[6..])))
  }

  /**
   * What a row becomes: it fails exactly when one of its three amount cells does
   * (the first of them in column order), and otherwise keeps the names verbatim,
   * the email verbatim unless blank, each amount as its cell reads (zero when
   * blank), and the trailing columns' adjustments.
   */
  lemma RowContents(header: seq<string>, row: seq<string>)
    requires |row| >= 6 && |header| == |row|
    ensures ParseRow(header, row).Failure? <==>
      ParseAmount(row[3]).Failure? || ParseAmount(row[4]).Failure? || ParseAmount(row[5]).Failure?
    ensures ParseRow(header, row).Failure? ==>
      ParseRow(header, row).error ==
        (if ParseAmount(row[3]).Failure? then ParseAmount(row[3]).error
         else if ParseAmount(row[4]).Failure? then ParseAmount(row[4]).error
         else ParseAmount(row[5]).error)
    ensures ParseRow(header, row).Success? ==>
      var r := ParseRow(header, row).value;
      && r.firstName == row[0] && r.lastName == row[1]
      && (row[2] != [] ==> r.email == row[2])
      && (row[2] == [] ==> r.email == row[0] + "." + row[1] + "@gmail.com")
      && Success(r.amountDonated) == ParseAmount(row[3])
      && Success(r.amountDue) == ParseAmount(row[4])
      && Success(r.amountPledged) == ParseAmount(row[5])
      && (Remove(row[3], ',') == [] ==> r.amountDonated == 0.0)
      && (Remove(row[4], ',') == [] ==> r.amountDue == 0.0)
      && (Remove(row[5], ',') == [] ==> r.amountPledged == 0.0)
      && r.adjustments == AdjustmentsFrom(header[6..], row[6..])
      && |r.adjustments| <= |row| - 6
  {
    AdjustmentsValid(header[6..], row[6..]);
  }

  /** The whole report: one record per row, or the first error met. */
  function ParseReport(header: seq<string>, rows: seq<seq<string>>): Result<seq<CollectionRecord>, ParseError>
    requires Rectangular(header, rows)
  {
    if rows == [] then Success([])
    else match ParseRow(header, rows[0])
      case Failure(e) => Failure(e)
      case Success(record) => Prepend([record], ParseReport(header, rows[1..]))
  }

  /**
   * A report parses exactly when every row does; it then has one record per
   * data row, in row order. Otherwise its error is that of the first bad row,
   * and no record is returned.
   */
  lemma ReportShape(header: seq<string>, rows: seq<seq<string>>)
    requires Rectangular(header, rows)
    ensures ParseReport(header, rows).Success? <==>
      forall i | 0 <= i < |rows| :: ParseRow(header, rows[i]).Success?
    ensures ParseReport(header, rows).Success? ==>
      |ParseReport(header, rows).value| == |rows| &&
      forall i | 0 <= i < |rows| :: ParseRow(header, rows[i]) == Success(ParseReport(header, rows).value[i])
    ensures ParseReport(header, rows).Failure? ==>
      exists i | 0 <= i < |rows| ::
        && ParseRow(header, rows[i]) == Failure(ParseReport(header, rows).error)
        && forall j | 0 <= j < i :: ParseRow(header, rows[j]).Success?
  {
    ReportRecords(header, rows);
    ReportFirstError(header, rows);
  }

  lemma {:induction false} ReportRecords(header: seq<string>, rows: seq<seq<string>>)
    requires Rectangular(header, rows)
    ensures ParseReport(header, rows).Success? <==>
      forall i | 0 <= i < |rows| :: ParseRow(header, rows[i]).Success?
    ensures ParseReport(header, rows).Success? ==>
      |ParseReport(header, rows).value| == |rows| &&
      forall i | 0 <= i < |rows| :: ParseRow(header, rows[i]) == Success(ParseReport(header, rows).value[i])
  {
    if rows != [] {
      var tail := rows[1..];
      ReportRecords(header, tail);
      assert forall i | 1 <= i < |rows| :: rows[i] == tail[i - 1];
      var head := ParseRow(header, rows[0]);
      if head.Success? && ParseReport(header, tail).Success? {
        var all := ParseReport(header, rows).value;
        assert all == [head.value] + ParseReport(header, tail).value;
        forall i | 0 <= i < |rows|
          ensures ParseRow(header, rows[i]) == Success(all[i])
        {
          if i > 0 {
            assert all[i] == ParseReport(header, tail).value[i - 1];
          }
        }
      }
    }
  }

  lemma {:induction false} ReportFirstError(header: seq<string>, rows: seq<seq<string>>)
    requires Rectangular(header, rows)
    ensures ParseReport(header, rows).Failure? ==>
      exists i | 0 <= i < |rows| ::
        && ParseRow(header, rows[i]) == Failure(ParseReport(header, rows).error)
        && forall j | 0 <= j < i :: ParseRow(header, rows[j]).Success?
  {
    if rows != [] && ParseRow(header, rows[0]).Success? && ParseReport(header, rows).Failure? {
      var tail := rows[1..];
      ReportFirstError(header, tail);
      var e := ParseReport(header, tail).error;
      assert ParseReport(header, rows).error == e;
      var i :| 0 <= i < |tail|
        && ParseRow(header, tail[i]) == Failure(e)
        && forall j | 0 <= j < i :: ParseRow(header, tail[j]).Success?;
      assert rows[i + 1] == tail[i];
      forall j | 0 <= j < i + 1 ensures ParseRow(header, rows[j]).Success? {
        if j > 0 {
          assert rows[j] == tail[j - 1];
        }
      }
    }
  }

  lemma ReportStep(header: seq<string>, rows: seq<seq<string>>, i: nat, record: CollectionRecord)
    requires Rectangular(header, rows) && i < |rows|
    requires ParseRow(header, rows[i]) == Success(record)
    ensures ParseReport(header, rows[i..]) == Prepend([record], ParseReport(header, rows[i + 1..]))
  {
    assert rows[i..][0] == rows[i] && rows[i..][1..] == rows[i + 1..];
  }

  lemma ReportStop(header: seq<string>, rows: seq<seq<string>>, i: nat, e: ParseError)
    requires Rectangular(header, rows) && i < |rows|
    requires ParseRow(header, rows[i]) == Failure(e)
    ensures ParseReport(header, rows[i..]) == Failure(e)
  {
    assert rows[i..][0] == rows[i];
  }

  /** The adjustment loop: walks the trailing cells and appends what each contributes. */
  method ParseAdjustments(names: seq<string>, values: seq<string>) returns (adjustments: seq<Adjustment>)
    requires |values| <= |names|
    ensures adjustments == AdjustmentsFrom(names, values)
  {
    adjustments := [];
    for i := 0 to |values|
      invariant adjustments == AdjustmentsFrom(names[..i], values[..i])
    {
      AdjustmentsSnoc(names, values, i);
      adjustments := AppendColumn(adjustments, names[i], values[i]);
    }
    assert values[..|values|] == values;
    AdjustmentsNamesPrefix(names, values);
  }

  /** One pass of the adjustment loop: a non-blank cell with a positive amount is appended. */
  method AppendColumn(adjustments: seq<Adjustment>, displayName: string, value: string)
    returns (adjustments': seq<Adjustment>)
    ensures adjustments' == adjustments + Column(displayName, value)
  {
    adjustments' := adjustments;
    if value != [] {
      var slug := Sluggify(displayName);
      var amount := ParseDecimal(value).GetOr(0.0);
      if amount > 0.0 {
        adjustments' := adjustments' + [Adjustment(displayName, slug, amount)];
      }
    }
  }

  lemma AdjustmentsSnoc(names: seq<string>, values: seq<string>, i: nat)
    requires i < |values| <= |names|
    ensures AdjustmentsFrom(names[..i + 1], values[..i + 1])
         == AdjustmentsFrom(names[..i], values[..i]) + Column(names[i], values[i])
  {
    assert names[..i + 1] == names[..i] + [names[i]] && values[..i + 1] == values[..i] + [values[i]];
    AdjustmentsAppend(names[..i], values[..i], [names[i]], [values[i]]);
    assert AdjustmentsFrom([names[i]], [values[i]]) == Column(names[i], values[i]) + AdjustmentsFrom([], []);
  }

  /** Only the names of the columns that have a cell matter. */
  lemma {:induction false} AdjustmentsNamesPrefix(names: seq<string>, values: seq<string>)
    requires |values| <= |names|
    ensures AdjustmentsFrom(names[..|values|], values) == AdjustmentsFrom(names, values)
  {
    if values != [] {
      AdjustmentsNamesPrefix(names[1..], values[1..]);
      assert names[..|values|][1..] == names[1..][..|values| - 1];
    }
  }

  /**
   * The steps the row loop repeats for each amount column: drop the commas,
   * read a blank cell as "0", parse.
   */
  method ReadAmount(cell: string) returns (r: Result<real, ParseError>)
    ensures r == ParseAmount(cell)
  {
    var raw := Remove(cell, ',');
    if raw == [] {
      raw := "0";
    }
    AmountCell(cell);
    var amount := ParseDecimal(raw);
    if amount.None? {
      return Failure(InvalidNumber(raw));
    }
    return Success(amount.value);
  }

  /** The row loop: the model of `ParseCollectionReportCSV` after tokenising. */
  method ParseCollectionReport(header: seq<string>, rows: seq<seq<string>>)
    returns (r: Result<seq<CollectionRecord>, ParseError>)
    requires Rectangular(header, rows)
    ensures r == ParseReport(header, rows)
  {
    var reportRecords: seq<CollectionRecord> := [];
    var i := 0;
    assert rows[0..] == rows;
    PrependPrepend([], [], ParseReport(header, rows));
    while i < |rows|
      invariant 0 <= i <= |rows|
      invariant ParseReport(header, rows) == Prepend(reportRecords, ParseReport(header, rows[i..]))
    {
      var record := rows[i];
      var firstName := record[0];
      var lastName := record[1];
      var email := record[2];
      var amountDonated := ReadAmount(record[3]);
      if amountDonated.Failure? {
        ReportStop(header, rows, i, amountDonated.error);
        return Failure(amountDonated.error);
      }
      var amountDue := ReadAmount(record[4]);
      if amountDue.Failure? {
        ReportStop(header, rows, i, amountDue.error);
        return Failure(amountDue.error);
      }
      var amountPledged := ReadAmount(record[5]);
      if amountPledged.Failure? {
        ReportStop(header, rows, i, amountPledged.error);
        return Failure(amountPledged.error);
      }

      if email == [] {
        email := firstName + "." + lastName + PlaceholderDomain;
      }

      var adjustments := ParseAdjustments(header[6..], record[6..]);
      assert ParseRow(header, record) == Success(CollectionRecord(firstName, lastName, email,
        amountDonated.value, amountDue.value, amountPledged.value, adjustments));

      var parsed := CollectionRecord(firstName, lastName, email,
        amountDonated.value, amountDue.value, amountPledged.value, adjustments);
      ReportStep(header, rows, i, parsed);
      PrependPrepend(reportRecords, [parsed], ParseReport(header, rows[i + 1..]));
      reportRecords := reportRecords + [parsed];
      i := i + 1;
    }
    assert rows[i..] == [];
    assert reportRecords + [] == reportRecords;
    return Success(reportRecords);
  }
}
