/**
 * The values the form-filling procedure of index.js types into the
 * application form, computed from one spreadsheet row: per-field
 * defaults for falsy cells, the date-of-birth split and padding, the
 * routing-number padding and the account-type mapping.
 *
 * Each text value reaches the page through `humanKeys`, which types
 * `String(text)` and types nothing at all for a falsy text.
 */
module FormInputs {
  import opened Js

  /** `data?.key || fallback`, as the text `humanKeys` types. */
  function TextOr(row: Row, key: string, fallback: string): (t: string)
    ensures Truthy(Get(row, key)) ==> t == ToJsString(row[key]) && t != ""
    ensures !Truthy(Get(row, key)) ==> t == fallback
  {
    if Truthy(Get(row, key)) then ToJsString(row[key]) else fallback
  }

  // ---------------------------------------------------------------- date of birth

  /** The characters of the regular expression `/[\/\-]/`. */
  const DobSeparators: set<char> := {'/', '-'}

  /** Where the date of birth comes from. */
  datatype DobPlan =
    | FromSerial(serial: int)                         // an Excel date number, converted by excelDateToParts
    | FromText(mm: string, dd: string, yyyy: string)  // a text date, split and padded
    | Randomized                                      // no usable cell: getRandomDOB

  /** `out` is `orig` with `'0'`s in front, up to `width` characters and never truncated. */
  predicate ZeroPadded(out: string, orig: string, width: nat)
  {
    && |out| == (if width > |orig| then width else |orig|)
    && out[|out| - |orig|..] == orig
    && forall i :: 0 <= i < |out| - |orig| ==> out[i] == '0'
  }

  /** Element `i` of a destructured array as `String` renders it: "undefined" when missing. */
  function PieceOr(pieces: seq<string>, i: nat): string
  {
    if i < |pieces| then pieces[i] else "undefined"
  }

  /**
   * A text date split on `/` or `-`: month and day padded to two
   * characters, year to four; pieces past the third are ignored.
   */
  function DobFromText(text: string): (plan: DobPlan)
    ensures plan.FromText?
    ensures var p := Split(text, DobSeparators);
      && ZeroPadded(plan.mm, PieceOr(p, 0), 2)
      && ZeroPadded(plan.dd, PieceOr(p, 1), 2)
      && ZeroPadded(plan.yyyy, PieceOr(p, 2), 4)
    ensures plan.mm != "" && plan.dd != "" && plan.yyyy != ""
  {
    var p := Split(text, DobSeparators);
    FromText(PadStart(PieceOr(p, 0), 2, '0'), PadStart(PieceOr(p, 1), 2, '0'), PadStart(PieceOr(p, 2), 4, '0'))
  }

  /** The choice between a number, a text date and a random date. */
  function DobPlanOf(dob: JsValue): (plan: DobPlan)
    ensures plan.FromSerial? <==> dob.Num?
    ensures plan.FromSerial? ==> plan.serial == dob.n
    ensures plan.Randomized? <==> !dob.Num? && !Truthy(dob)
    ensures plan.FromText? ==> plan == DobFromText(ToJsString(dob))
  {
    if dob.Num? then FromSerial(dob.n)
    else if Truthy(dob) then DobFromText(ToJsString(dob))
    else Randomized
  }

  /** A month/day/year text with either separator gives its three pieces, padded. */
  lemma DobOfDelimitedText(m: string, d: string, y: string, c1: char, c2: char)
    requires NoneOf(m, DobSeparators) && NoneOf(d, DobSeparators) && NoneOf(y, DobSeparators)
    requires c1 in DobSeparators && c2 in DobSeparators
    ensures DobFromText(m + [c1] + d + [c2] + y)
      == FromText(PadStart(m, 2, '0'), PadStart(d, 2, '0'), PadStart(y, 4, '0'))
  {
    var text := m + [c1] + d + [c2] + y;
    assert text == m + [c1] + (d + [c2] + y);
    SplitAfter(m, c1, d + [c2] + y, DobSeparators);
    SplitAfter(d, c2, y, DobSeparators);
    SplitWhole(y, DobSeparators);
    var p := Split(text, DobSeparators);
    assert p == [m, d, y];
    assert PieceOr(p, 0) == m && PieceOr(p, 1) == d && PieceOr(p, 2) == y;
  }

  /** A text with no separator is the month; day and year become "undefined". */
  lemma DobOfUndelimitedText(text: string)
    requires NoneOf(text, DobSeparators)
    ensures DobFromText(text) == FromText(PadStart(text, 2, '0'), "undefined", "undefined")
  {
    SplitWhole(text, DobSeparators);
  }

  /** Zero padding keeps a piece free of separators, since the fill `'0'` is not one. */
  lemma PadStartHasNoneOf(s: string, width: int)
    requires NoneOf(s, DobSeparators)
    ensures NoneOf(PadStart(s, width, '0'), DobSeparators)
  {
    var r := PadStart(s, width, '0');
    forall i | 0 <= i < |r| ensures r[i] !in DobSeparators {
      if i < |r| - |s| {
        assert r[i] == '0';
      } else {
        assert r[i] == r[|r| - |s|..][i - (|r| - |s|)];
      }
    }
  }

  /** A piece of a split, or the "undefined" of a missing one, holds no separator. */
  lemma PieceOrHasNoneOf(p: seq<string>, i: nat)
    requires forall k :: 0 <= k < |p| ==> NoneOf(p[k], DobSeparators)
    ensures NoneOf(PieceOr(p, i), DobSeparators)
  {
    if i >= |p| {
      var u := "undefined";
      forall k | 0 <= k < |u| ensures u[k] !in DobSeparators {
      }
    }
  }

  /** Normalising a normalised date of birth, written back as `mm/dd/yyyy`, changes nothing. */
  lemma DobFromTextIdempotent(text: string)
    ensures var plan := DobFromText(text);
      DobFromText(plan.mm + "/" + plan.dd + "/" + plan.yyyy) == plan
  {
    var p := Split(text, DobSeparators);
    var m, d, y := PieceOr(p, 0), PieceOr(p, 1), PieceOr(p, 2);
    PieceOrHasNoneOf(p, 0);
    PieceOrHasNoneOf(p, 1);
    PieceOrHasNoneOf(p, 2);
    var mm, dd, yyyy := PadStart(m, 2, '0'), PadStart(d, 2, '0'), PadStart(y, 4, '0');
    assert DobFromText(text) == FromText(mm, dd, yyyy);
    PadStartHasNoneOf(m, 2);
    PadStartHasNoneOf(d, 2);
    PadStartHasNoneOf(y, 4);
    assert mm + "/" + dd + "/" + yyyy == mm + ['/'] + dd + ['/'] + yyyy;
    DobOfDelimitedText(mm, dd, yyyy, '/', '/');
    PadStartIdempotent(m, 2, '0');
    PadStartIdempotent(d, 2, '0');
    PadStartIdempotent(y, 4, '0');
  }

  // ---------------------------------------------------------------- banking

  const DefaultRouting := "011000015"

  /** The routing number typed: the cell or the default, right-padded with zeros to nine characters. */
  function BankAba(routing: JsValue): (aba: string)
    ensures |aba| >= 9
    ensures !Truthy(routing) ==> aba == DefaultRouting
    ensures Truthy(routing) ==>
      var src := ToJsString(routing);
      if |src| < 9 then |aba| == 9 && aba[..|src|] == src && forall i :: |src| <= i < 9 ==> aba[i] == '0'
      else aba == src
  {
    var src := ToJsString(if Truthy(routing) then routing else Str(DefaultRouting));
    if |src| < 9 then PadEnd(src, 9, '0') else src
  }

  /** The account type selected: "Cheque" exactly for the cell "checking". */
  function BankType(accountType: JsValue): (t: string)
    ensures t == "Cheque" <==> accountType == Str("checking")
    ensures t == "Savings" <==> accountType != Str("checking")
  {
    if accountType == Str("checking") then "Cheque" else "Savings"
  }

  // ---------------------------------------------------------------- last name

  /** The last name exactly as index.js reads it: from a column spelled "lasname". */
  function LastNameAsWritten(row: Row): (t: string)
    ensures t != ""
    ensures Truthy(Get(row, "lasname")) ==> t == ToJsString(row["lasname"])
    ensures !Truthy(Get(row, "lasname")) ==> t == "Doe"
    ensures "lasname" !in row ==> t == "Doe"
  {
    TextOr(row, "lasname", "Doe")
  }

  /** Whatever the "lastname" column holds, the name typed as written is the same. */
  lemma {:induction false} LastNameAsWrittenIgnoresColumn(row: Row, v: JsValue)
    ensures LastNameAsWritten(row["lastname" := v]) == LastNameAsWritten(row)
    ensures LastNameAsWritten(map["lastname" := Str("Smith")]) == "Doe"
  {
    assert Get(row["lastname" := v], "lasname") == Get(row, "lasname");
    assert Get(map["lastname" := Str("Smith")], "lasname") == Undefined;
  }

  /** The last name read from the "lastname" column, the column validateAndFormatData requires. */
  function LastName(row: Row): (t: string)
    ensures t != ""
    ensures Truthy(Get(row, "lastname")) ==> t == ToJsString(row["lastname"])
    ensures !Truthy(Get(row, "lastname")) ==> t == "Doe"
  {
    TextOr(row, "lastname", "Doe")
  }

  // ---------------------------------------------------------------- the whole form

  /** Every value the procedure types or selects that comes from the row. */
  datatype FormValues = FormValues(
    firstName: string, lastName: string, dob: DobPlan, phone: string,
    address: string, postCode: string, city: string, stateAbbr: string,
    companyName: string, salary: string, workPhone: string,
    bankName: string, bankAccount: string, bankAba: string, bankType: string,
    ssn: string, dlNumber: string)

  /** No text value is empty, so `humanKeys` types every one of them; the state is selected, not typed. */
  predicate AllTyped(f: FormValues)
  {
    && f.firstName != "" && f.lastName != "" && f.phone != ""
    && f.address != "" && f.postCode != "" && f.city != ""
    && f.companyName != "" && f.salary != "" && f.workPhone != ""
    && f.bankName != "" && f.bankAccount != "" && f.bankAba != ""
    && f.ssn != "" && f.dlNumber != ""
    && (f.dob.FromText? ==> f.dob.mm != "" && f.dob.dd != "" && f.dob.yyyy != "")
  }

  /**
   * `stateAbbr.toUpperCase()` throws a TypeError when the state cell is
   * truthy but not a string, which aborts the whole row.
   */
  predicate StateCellThrows(row: Row)
  {
    Truthy(Get(row, "state")) && !row["state"].Str?
  }

  /**
   * The row's values with the defaults of index.js; the last name from
   * "lastname". `None` is the row aborted at the state lookup, after the
   * names, the date of birth and the phone have been typed.
   */
  function FormValuesOf(row: Row): (r: Option<FormValues>)
    ensures r.None? <==> StateCellThrows(row)
    ensures r.Some? ==> var f := r.value;
      && AllTyped(f)
      && f.firstName == TextOr(row, "firstname", "John")
      && f.lastName == LastName(row)
      && f.dob == DobPlanOf(Get(row, "dob"))
      && f.phone == TextOr(row, "phone1", "3233233323")
      && f.address == TextOr(row, "address", "123 Main St")
      && f.postCode == TextOr(row, "zip", "90001")
      && f.city == TextOr(row, "city", "Los Angeles")
      && f.stateAbbr == TextOr(row, "state", "CA")
      && f.companyName == TextOr(row, "employer", "Employer Inc")
      && f.salary == TextOr(row, "salary", "5000")
      && f.workPhone == TextOr(row, "workphone", "3233233323")
      && f.bankName == TextOr(row, "bank_name", "Bank of America")
      && f.bankAccount == TextOr(row, "bank_acc_number", "123456789")
      && f.bankAba == BankAba(Get(row, "bank_routing"))
      && f.bankType == BankType(Get(row, "bank_acc_type"))
      && f.ssn == TextOr(row, "ssn", "123456789")
      && f.dlNumber == TextOr(row, "dl_number", "D1234567")
    ensures row == map[] ==> r == Some(FormValues(
      "John", "Doe", Randomized, "3233233323",
      "123 Main St", "90001", "Los Angeles", "CA",
      "Employer Inc", "5000", "3233233323",
      "Bank of America", "123456789", DefaultRouting, "Savings",
      "123456789", "D1234567"))
  {
    if StateCellThrows(row) then None
    else Some(FormValues(
      TextOr(row, "firstname", "John"),
      LastName(row),
      DobPlanOf(Get(row, "dob")),
      TextOr(row, "phone1", "3233233323"),
      TextOr(row, "address", "123 Main St"),
      TextOr(row, "zip", "90001"),
      TextOr(row, "city", "Los Angeles"),
      TextOr(row, "state", "CA"),
      TextOr(row, "employer", "Employer Inc"),
      TextOr(row, "salary", "5000"),
      TextOr(row, "workphone", "3233233323"),
      TextOr(row, "bank_name", "Bank of America"),
      TextOr(row, "bank_acc_number", "123456789"),
      BankAba(Get(row, "bank_routing")),
      BankType(Get(row, "bank_acc_type")),
      TextOr(row, "ssn", "123456789"),
      TextOr(row, "dl_number", "D1234567")))
  }

  /** A number in the state column aborts the row; a state text is kept as given. */
  lemma StateCellOutcomes(row: Row, n: int, st: string)
    requires n != 0 && st != ""
    ensures FormValuesOf(row["state" := Num(n)]) == None
    ensures FormValuesOf(row["state" := Str(st)]).Some?
    ensures FormValuesOf(row["state" := Str(st)]).value.stateAbbr == st
  {
    assert Get(row["state" := Num(n)], "state") == Num(n);
    assert Get(row["state" := Str(st)], "state") == Str(st);
  }
}
