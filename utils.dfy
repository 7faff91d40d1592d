/**
 * The data helpers of utils.js: `formatDate`, which renders a date as
 * month/day/year without padding, and `validateAndFormatData`, which
 * rejects an applicant record missing a required field and otherwise
 * normalises four of its fields in place.
 */
module Utils {
  import opened Js
  import FormInputs

  // ---------------------------------------------------------------- formatDate

  /** The argument of `formatDate`: a `Date` (month counted from 0) or any other value. */
  datatype DateArg = Date(month0: int, day: int, year: int) | NotDate(value: JsValue)

  /** `formatDate(date)`: a non-`Date` comes back as it was. */
  function FormatDate(arg: DateArg): (r: JsValue)
    ensures arg.NotDate? ==> r == arg.value
    ensures arg.Date? ==> r.Str?
  {
    match arg
    case NotDate(v) => v
    case Date(month0, day, year) => Str(Decimal(month0 + 1) + "/" + Decimal(day) + "/" + Decimal(year))
  }

  /** A formatted date splits on `/` into month (from 1), day and year, in that order. */
  lemma FormatDatePieces(month0: int, day: int, year: int)
    ensures Split(FormatDate(Date(month0, day, year)).s, {'/'})
      == [Decimal(month0 + 1), Decimal(day), Decimal(year)]
  {
    var pieces := [Decimal(month0 + 1), Decimal(day), Decimal(year)];
    forall k | 0 <= k < 3 ensures NoneOf(pieces[k], {'/'}) {
      DecimalHasNoneOf([month0 + 1, day, year][k], {'/'});
    }
    SplitJoin(pieces, '/', {'/'});
    assert pieces[1..] == [Decimal(day), Decimal(year)] && pieces[1..][1..] == [Decimal(year)];
    assert Join(pieces[1..], '/') == Decimal(day) + ['/'] + Decimal(year);
    assert Join(pieces, '/') == Decimal(month0 + 1) + ['/'] + (Decimal(day) + ['/'] + Decimal(year));
    assert Join(pieces, '/') == FormatDate(Date(month0, day, year)).s;
  }

  /**
   * For a calendar date, the three pieces read back as the month counted
   * from 1, the day and the year, and none of them has a leading zero.
   */
  lemma FormatDateRoundTrip(month0: int, day: int, year: int)
    requires 0 <= month0 <= 11 && 1 <= day <= 31 && year >= 1
    ensures var p := Split(FormatDate(Date(month0, day, year)).s, {'/'});
      && |p| == 3
      && ParseDigits(p[0]) == month0 + 1 && ParseDigits(p[1]) == day && ParseDigits(p[2]) == year
      && p[0][0] != '0' && p[1][0] != '0' && p[2][0] != '0'
  {
    FormatDatePieces(month0, day, year);
    DigitsRoundTrip(month0 + 1);
    DigitsRoundTrip(day);
    DigitsRoundTrip(year);
  }

  /**
   * Feeding a formatted date to the date-of-birth normaliser of index.js
   * pads month and day to two digits and the year to four.
   */
  lemma DobOfFormattedDate(month0: int, day: int, year: int)
    requires month0 >= -1 && day >= 0 && year >= 0
    ensures FormInputs.DobFromText(FormatDate(Date(month0, day, year)).s)
      == FormInputs.FromText(PadStart(Digits(month0 + 1), 2, '0'), PadStart(Digits(day), 2, '0'), PadStart(Digits(year), 4, '0'))
  {
    var seps := FormInputs.DobSeparators;
    assert !IsDigit('/') && !IsDigit('-');
    DigitsHaveNoneOf(month0 + 1, seps);
    DigitsHaveNoneOf(day, seps);
    DigitsHaveNoneOf(year, seps);
    var m, d, y := Digits(month0 + 1), Digits(day), Digits(year);
    assert FormatDate(Date(month0, day, year)).s == m + ['/'] + d + ['/'] + y;
    FormInputs.DobOfDelimitedText(m, d, y, '/', '/');
  }

  // ---------------------------------------------------------------- validateAndFormatData

  /** The fields a record must hold, each with a truthy value. */
  const RequiredFields: seq<string> := [
    "zip", "ssn", "dob", "phone1", "employer", "workphone", "military",
    "dl_number", "dl_state", "firstname", "lastname", "address", "email",
    "salary", "bank_acc_type", "bank_routing", "bank_acc_number", "loan_amount"
  ]

  /** `fields.some((field) => !data[field])`. */
  function MissingAmong(data: Row, fields: seq<string>): (missing: bool)
    ensures missing <==> exists i :: 0 <= i < |fields| && !Truthy(Get(data, fields[i]))
  {
    if fields == [] then false
    else if !Truthy(Get(data, fields[0])) then true
    else
      var rest := MissingAmong(data, fields[1..]);
      assert forall i :: 1 <= i < |fields| ==> fields[i] == fields[1..][i - 1];
      rest
  }

  /** A record `validateAndFormatData` accepts. */
  predicate Complete(data: Row)
  {
    !MissingAmong(data, RequiredFields)
  }

  /** An employer name shorter than three characters gets " CO" appended. */
  function FormatEmployer(v: JsValue): (r: JsValue)
    ensures v.Str? && v.s != "" ==> r.Str? && |r.s| >= 3 && |r.s| >= |v.s| && r.s[..|v.s|] == v.s
    ensures v.Str? && 0 < |v.s| < 3 ==> r.s[|v.s|..] == " CO"
    ensures !(v.Str? && 0 < |v.s| < 3) ==> r == v
  {
    if v.Str? && v.s != "" && |v.s| < 3 then Str(v.s + " CO") else v
  }

  /** The new loan amount, `String(Math.floor(Math.random() * 91 + 10) * 10)` with `pick` for `Math.floor(Math.random() * 91)`. */
  function LoanAmount(pick: nat): (r: JsValue)
    requires pick < 91
    ensures r.Str? && |r.s| >= 3 && AllDigits(r.s)
    ensures 100 <= ParseDigits(r.s) <= 1000 && ParseDigits(r.s) % 10 == 0
    ensures r.s[|r.s| - 1] == '0'
  {
    var amount := (pick + 10) * 10;
    DigitsRoundTrip(amount);
    DigitsOfMultipleOfTen(amount);
    assert amount >= 100 ==> |Digits(amount)| >= 3 by {
      assert Digits(amount) == Digits(amount / 10) + [DigitChar(amount % 10)];
      assert Digits(amount / 10) == Digits(amount / 100) + [DigitChar(amount / 10 % 10)];
    }
    Str(Decimal(amount))
  }

  /** Every multiple of ten from 100 to 1000 is a possible loan amount. */
  lemma LoanAmountReachesEveryValue(amount: nat)
    requires 100 <= amount <= 1000 && amount % 10 == 0
    ensures LoanAmount(amount / 10 - 10) == Str(Decimal(amount))
  {
  }

  /** A zip code of three or four characters is zero-padded to five; any other is kept. */
  function FormatZip(v: JsValue): (r: JsValue)
    ensures var z := ToJsString(v);
      (|z| == 3 || |z| == 4) ==>
        && r.Str? && |r.s| == 5 && r.s[5 - |z|..] == z
        && forall i :: 0 <= i < 5 - |z| ==> r.s[i] == '0'
    ensures var z := ToJsString(v); !(|z| == 3 || |z| == 4) ==> r == v
  {
    var zip := ToJsString(v);
    if |zip| == 4 then Str("0" + zip)
    else if |zip| == 3 then Str("00" + zip)
    else v
  }

  /** A social-security number shorter than nine characters is zero-padded to nine; a longer one is kept. */
  function FormatSsn(v: JsValue): (r: JsValue)
    ensures var s := ToJsString(v);
      |s| < 9 ==>
        && r.Str? && |r.s| == 9 && r.s[9 - |s|..] == s
        && forall i :: 0 <= i < 9 - |s| ==> r.s[i] == '0'
    ensures |ToJsString(v)| >= 9 ==> r == v
  {
    var ssn := ToJsString(v);
    if |ssn| < 9 then Str(Repeat('0', 9 - |ssn|) + ssn) else v
  }

  /** `data[key] = f(data[key])` guarded by `if (data[key])`. */
  function UpdateIfSet(data: Row, key: string, value: JsValue): Row
  {
    if Truthy(Get(data, key)) then data[key := value] else data
  }

  /** The four field rewrites of `validateAndFormatData`, in the order the source makes them. */
  function Normalize(data: Row, pick: nat): Row
    requires pick < 91
  {
    var d1 := UpdateIfSet(data, "employer", FormatEmployer(Get(data, "employer")));
    var d2 := UpdateIfSet(d1, "loan_amount", LoanAmount(pick));
    var d3 := UpdateIfSet(d2, "zip", FormatZip(Get(d2, "zip")));
    UpdateIfSet(d3, "ssn", FormatSsn(Get(d3, "ssn")))
  }

  /** `validateAndFormatData(data)` as a value: `None` is the `null` it returns. */
  function ValidateAndFormat(data: Row, pick: nat): Option<Row>
    requires pick < 91
  {
    if MissingAmong(data, RequiredFields) then None else Some(Normalize(data, pick))
  }

  /** The fields `validateAndFormatData` may rewrite. */
  const Rewritten: set<string> := {"employer", "loan_amount", "zip", "ssn"}

  /** A record is rejected exactly when one of the eighteen required fields is falsy. */
  lemma RejectsExactlyIncomplete(data: Row, pick: nat)
    requires pick < 91
    ensures ValidateAndFormat(data, pick) == None
      <==> exists i :: 0 <= i < |RequiredFields| && !Truthy(Get(data, RequiredFields[i]))
    ensures Get(data, "military") == Str("") ==> ValidateAndFormat(data, pick) == None
    ensures Get(data, "salary") == Num(0) ==> ValidateAndFormat(data, pick) == None
  {
    assert RequiredFields[6] == "military" && RequiredFields[13] == "salary";
  }

  /**
   * An accepted record keeps its keys and every field outside the four
   * rewritten ones; the four are rewritten by their formatting rules.
   */
  lemma NormalizeEffect(data: Row, pick: nat)
    requires pick < 91 && Complete(data)
    ensures var out := Normalize(data, pick);
      && Rewritten <= data.Keys
      && out.Keys == data.Keys
      && (forall k :: k in data && k !in Rewritten ==> out[k] == data[k])
      && out["employer"] == FormatEmployer(data["employer"])
      && out["loan_amount"] == LoanAmount(pick)
      && out["zip"] == FormatZip(data["zip"])
      && out["ssn"] == FormatSsn(data["ssn"])
  {
    CompleteSetsRewritten(data);
    NormalizeOverwrites(data, pick);
  }

  lemma FormatEmployerIdempotent(v: JsValue)
    ensures FormatEmployer(FormatEmployer(v)) == FormatEmployer(v)
  {
  }

  lemma FormatZipIdempotent(v: JsValue)
    ensures FormatZip(FormatZip(v)) == FormatZip(v)
  {
  }

  lemma FormatSsnIdempotent(v: JsValue)
    ensures FormatSsn(FormatSsn(v)) == FormatSsn(v)
  {
  }

  /** The formatting rules turn a truthy value into a truthy value. */
  lemma FormattedStaysTruthy(v: JsValue)
    requires Truthy(v)
    ensures Truthy(FormatEmployer(v)) && Truthy(FormatZip(v)) && Truthy(FormatSsn(v))
  {
  }

  lemma UpdateIfSetKeepsTruthy(data: Row, key: string, value: JsValue, k: string)
    requires Truthy(Get(data, k))
    requires Truthy(Get(data, key)) ==> Truthy(value)
    ensures Truthy(Get(UpdateIfSet(data, key, value), k))
  {
  }

  /** Normalising never makes a truthy field falsy or removes it. */
  lemma NormalizeKeepsTruthy(data: Row, pick: nat, k: string)
    requires pick < 91 && Truthy(Get(data, k))
    ensures Truthy(Get(Normalize(data, pick), k))
  {
    var d1 := UpdateIfSet(data, "employer", FormatEmployer(Get(data, "employer")));
    var d2 := UpdateIfSet(d1, "loan_amount", LoanAmount(pick));
    var d3 := UpdateIfSet(d2, "zip", FormatZip(Get(d2, "zip")));
    if Truthy(Get(data, "employer")) { FormattedStaysTruthy(Get(data, "employer")); }
    UpdateIfSetKeepsTruthy(data, "employer", FormatEmployer(Get(data, "employer")), k);
    UpdateIfSetKeepsTruthy(d1, "loan_amount", LoanAmount(pick), k);
    if Truthy(Get(d2, "zip")) { FormattedStaysTruthy(Get(d2, "zip")); }
    UpdateIfSetKeepsTruthy(d2, "zip", FormatZip(Get(d2, "zip")), k);
    if Truthy(Get(d3, "ssn")) { FormattedStaysTruthy(Get(d3, "ssn")); }
    UpdateIfSetKeepsTruthy(d3, "ssn", FormatSsn(Get(d3, "ssn")), k);
  }

  /** Normalising keeps every required field truthy. */
  lemma NormalizeKeepsComplete(data: Row, pick: nat)
    requires pick < 91 && Complete(data)
    ensures Complete(Normalize(data, pick))
  {
    var out := Normalize(data, pick);
    forall i | 0 <= i < |RequiredFields| ensures Truthy(Get(out, RequiredFields[i])) {
      NormalizeKeepsTruthy(data, pick, RequiredFields[i]);
    }
  }

  /** The four rewritten fields all hold truthy values. */
  predicate RewrittenSet(data: Row)
  {
    && Truthy(Get(data, "employer")) && Truthy(Get(data, "loan_amount"))
    && Truthy(Get(data, "zip")) && Truthy(Get(data, "ssn"))
  }

  function Overwrite(data: Row, employer: JsValue, loan: JsValue, zip: JsValue, ssn: JsValue): Row
  {
    data["employer" := employer]["loan_amount" := loan]["zip" := zip]["ssn" := ssn]
  }

  /** When all four fields are set, every guarded rewrite happens. */
  lemma NormalizeOverwrites(data: Row, pick: nat)
    requires pick < 91 && RewrittenSet(data)
    ensures Normalize(data, pick)
      == Overwrite(data, FormatEmployer(data["employer"]), LoanAmount(pick), FormatZip(data["zip"]), FormatSsn(data["ssn"]))
  {
    var d1 := UpdateIfSet(data, "employer", FormatEmployer(Get(data, "employer")));
    assert d1 == data["employer" := FormatEmployer(data["employer"])];
    var d2 := UpdateIfSet(d1, "loan_amount", LoanAmount(pick));
    assert d2 == d1["loan_amount" := LoanAmount(pick)];
    var d3 := UpdateIfSet(d2, "zip", FormatZip(Get(d2, "zip")));
    assert Get(d2, "zip") == data["zip"];
    assert d3 == d2["zip" := FormatZip(data["zip"])];
    assert Get(d3, "ssn") == data["ssn"];
  }

  /** Overwriting the same four fields twice keeps the second values. */
  lemma OverwriteTwice(data: Row, e: JsValue, l: JsValue, z: JsValue, s: JsValue,
                       e2: JsValue, l2: JsValue, z2: JsValue, s2: JsValue)
    ensures Overwrite(Overwrite(data, e, l, z, s), e2, l2, z2, s2) == Overwrite(data, e2, l2, z2, s2)
  {
    var lhs, rhs := Overwrite(Overwrite(data, e, l, z, s), e2, l2, z2, s2), Overwrite(data, e2, l2, z2, s2);
    assert lhs.Keys == rhs.Keys;
    forall k | k in lhs ensures lhs[k] == rhs[k] {
    }
  }

  /**
   * Running `validateAndFormatData` again on its own output accepts it and
   * changes nothing but the loan amount, which is drawn afresh.
   */
  lemma RevalidateOnlyRedrawsLoan(data: Row, pick: nat, pick2: nat)
    requires pick < 91 && pick2 < 91 && Complete(data)
    ensures ValidateAndFormat(Normalize(data, pick), pick2) == Some(Normalize(data, pick2))
  {
    CompleteSetsRewritten(data);
    var fe, fz, fs := FormatEmployer(data["employer"]), FormatZip(data["zip"]), FormatSsn(data["ssn"]);
    var out := Normalize(data, pick);
    assert Complete(out) by {
      NormalizeKeepsComplete(data, pick);
    }
    assert out == Overwrite(data, fe, LoanAmount(pick), fz, fs) by {
      NormalizeOverwrites(data, pick);
    }
    assert out["employer"] == fe && out["zip"] == fz && out["ssn"] == fs;
    var again := Normalize(out, pick2);
    assert again == Overwrite(out, fe, LoanAmount(pick2), fz, fs) by {
      CompleteSetsRewritten(out);
      NormalizeOverwrites(out, pick2);
      FormatEmployerIdempotent(data["employer"]);
      FormatZipIdempotent(data["zip"]);
      FormatSsnIdempotent(data["ssn"]);
    }
    assert again == Overwrite(data, fe, LoanAmount(pick2), fz, fs) by {
      OverwriteTwice(data, fe, LoanAmount(pick), fz, fs, fe, LoanAmount(pick2), fz, fs);
    }
    NormalizeOverwrites(data, pick2);
  }

  lemma CompleteSetsRewritten(data: Row)
    requires Complete(data)
    ensures RewrittenSet(data)
  {
    assert RequiredFields[0] == "zip" && RequiredFields[1] == "ssn";
    assert RequiredFields[4] == "employer" && RequiredFields[17] == "loan_amount";
  }

  /** A spreadsheet record that `validateAndFormatData` updates in place. */
  class Applicant {
    var fields: Row

    constructor (fields: Row)
      ensures this.fields == fields
    {
      this.fields := fields;
    }

    /**
     * `validateAndFormatData(data)`: `null` and no change for an incomplete
     * record; otherwise the record itself, its fields normalised.
     */
    method ValidateAndFormatData(pick: nat) returns (r: Applicant?)
      requires pick < 91
      modifies this
      ensures r == null <==> !Complete(old(fields))
      ensures r == null ==> fields == old(fields)
      ensures r != null ==> r == this && fields == Normalize(old(fields), pick)
    {
      if MissingAmong(fields, RequiredFields) {
        return null;
      }
      FormatEmployerField();
      DrawLoanAmount(pick);
      FormatZipField();
      FormatSsnField();
      return this;
    }

    /** `if (data.employer && data.employer.length < 3) data.employer = `${data.employer} CO`` */
    method FormatEmployerField()
      modifies this
      ensures fields == UpdateIfSet(old(fields), "employer", FormatEmployer(Get(old(fields), "employer")))
    {
      var employer := Get(fields, "employer");
      if Truthy(employer) && employer.Str? && |employer.s| < 3 {
        fields := fields["employer" := Str(employer.s + " CO")];
      } else if Truthy(employer) {
        assert fields["employer" := employer] == fields;
      }
    }

    /** `if (data.loan_amount) data.loan_amount = String(...)` */
    method DrawLoanAmount(pick: nat)
      requires pick < 91
      modifies this
      ensures fields == UpdateIfSet(old(fields), "loan_amount", LoanAmount(pick))
    {
      if Truthy(Get(fields, "loan_amount")) {
        fields := fields["loan_amount" := Str(Decimal((pick + 10) * 10))];
      }
    }

    /** `if (data.zip)`: a zip of four characters gets one leading zero, of three two. */
    method FormatZipField()
      modifies this
      ensures fields == UpdateIfSet(old(fields), "zip", FormatZip(Get(old(fields), "zip")))
    {
      if Truthy(Get(fields, "zip")) {
        var zip := ToJsString(fields["zip"]);
        if |zip| == 4 {
          fields := fields["zip" := Str("0" + zip)];
        } else if |zip| == 3 {
          fields := fields["zip" := Str("00" + zip)];
        } else {
          assert fields["zip" := fields["zip"]] == fields;
        }
      }
    }

    /** `if (data.ssn)`: an ssn shorter than nine characters is zero-padded to nine. */
    method FormatSsnField()
      modifies this
      ensures fields == UpdateIfSet(old(fields), "ssn", FormatSsn(Get(old(fields), "ssn")))
    {
      if Truthy(Get(fields, "ssn")) {
        var ssn := ToJsString(fields["ssn"]);
        if |ssn| < 9 {
          fields := fields["ssn" := Str(Repeat('0', 9 - |ssn|) + ssn)];
        } else {
          assert fields["ssn" := fields["ssn"]] == fields;
        }
      }
    }
  }
}
