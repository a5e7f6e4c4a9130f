/** Required-field validation of a registration form. */
module UserValidation {
  import opened Models

  /** The required fields of a form, as (field name, value) pairs, in the order in which
      they are checked. `isDualBooted` and `referralCode` are not among them. */
  function RequiredFields(u: UserInput): seq<(string, string)> {
    [ ("Name", u.name), ("Email", u.email), ("Phone", u.phone),
      ("TransactionId", u.transactionId), ("CollegeName", u.collegeName),
      ("YearOfStudy", u.yearOfStudy), ("Branch", u.branch), ("PaymentImg", u.paymentImg) ]
  }

  /** Field `k` is empty and every field checked before it is not. */
  predicate IsFirstMissing(fields: seq<(string, string)>, k: int) {
    0 <= k < |fields| && fields[k].1 == "" && forall j :: 0 <= j < k ==> fields[j].1 != ""
  }

  /** The message reported for a missing field. */
  function RequiredMessage(field: string): string {
    field + " is required"
  }

  /** Checks the required fields in order and stops at the first empty one (an exact
      comparison with the empty string: nothing is trimmed). Returns (true, "") when all
      of them are filled in, and otherwise (false, that field's message). */
  function ValidateUserInput(u: UserInput): (r: (bool, string))
    ensures r.0 <==> r.1 == ""
  {
    if u.name == "" then (false, "Name is required")
    else if u.email == "" then (false, "Email is required")
    else if u.phone == "" then (false, "Phone is required")
    else if u.transactionId == "" then (false, "TransactionId is required")
    else if u.collegeName == "" then (false, "CollegeName is required")
    else if u.yearOfStudy == "" then (false, "YearOfStudy is required")
    else if u.branch == "" then (false, "Branch is required")
    else if u.paymentImg == "" then (false, "PaymentImg is required")
    else (true, "")
  }

  /** A rejected form is rejected with the message of the first empty field. */
  lemma ValidateReportsFirstMissing(u: UserInput, k: int)
    requires IsFirstMissing(RequiredFields(u), k)
    ensures ValidateUserInput(u) == (false, RequiredMessage(RequiredFields(u)[k].0))
  {
    var fields := RequiredFields(u);
    assert fields[0] == ("Name", u.name) && fields[1] == ("Email", u.email);
    assert fields[2] == ("Phone", u.phone) && fields[3] == ("TransactionId", u.transactionId);
    assert fields[4] == ("CollegeName", u.collegeName) && fields[5] == ("YearOfStudy", u.yearOfStudy);
    assert fields[6] == ("Branch", u.branch) && fields[7] == ("PaymentImg", u.paymentImg);
    if k == 0 {
      assert RequiredMessage("Name") == "Name is required";
    } else if k == 1 {
      assert RequiredMessage("Email") == "Email is required";
    } else if k == 2 {
      assert RequiredMessage("Phone") == "Phone is required";
    } else if k == 3 {
      assert RequiredMessage("TransactionId") == "TransactionId is required";
    } else if k == 4 {
      assert RequiredMessage("CollegeName") == "CollegeName is required";
    } else if k == 5 {
      assert RequiredMessage("YearOfStudy") == "YearOfStudy is required";
    } else if k == 6 {
      assert RequiredMessage("Branch") == "Branch is required";
    } else {
      assert RequiredMessage("PaymentImg") == "PaymentImg is required";
    }
  }

  /** Every required field is filled in. */
  predicate AllRequiredPresent(u: UserInput) {
    forall k :: 0 <= k < |RequiredFields(u)| ==> RequiredFields(u)[k].1 != ""
  }

  /** A form is accepted exactly when every required field is filled in; when one is not,
      the first empty one in check order is well defined. */
  lemma {:induction false} AcceptsExactlyComplete(u: UserInput)
    ensures ValidateUserInput(u).0 <==> AllRequiredPresent(u)
    ensures !ValidateUserInput(u).0 ==> exists k :: IsFirstMissing(RequiredFields(u), k)
  {
    var fields := RequiredFields(u);
    assert fields[0] == ("Name", u.name) && fields[1] == ("Email", u.email);
    assert fields[2] == ("Phone", u.phone) && fields[3] == ("TransactionId", u.transactionId);
    assert fields[4] == ("CollegeName", u.collegeName) && fields[5] == ("YearOfStudy", u.yearOfStudy);
    assert fields[6] == ("Branch", u.branch) && fields[7] == ("PaymentImg", u.paymentImg);
    if !AllRequiredPresent(u) {
      var k := 0;
      while fields[k].1 != ""
        invariant 0 <= k < |fields|
        invariant forall j :: 0 <= j < k ==> fields[j].1 != ""
        decreases |fields| - k
      {
        k := k + 1;
      }
      assert IsFirstMissing(fields, k);
    }
  }

  /** `isDualBooted` and `referralCode` never affect validation. */
  lemma OptionalFieldsIgnored(u: UserInput, dualBooted: bool, code: string)
    ensures ValidateUserInput(u.(isDualBooted := dualBooted, referralCode := code)) == ValidateUserInput(u)
  {
  }

  /** A form whose only empty field is the transaction id. */
  lemma MissingTransactionId(u: UserInput)
    requires u.transactionId == ""
    requires u.name != "" && u.email != "" && u.phone != "" && u.collegeName != ""
    requires u.yearOfStudy != "" && u.branch != "" && u.paymentImg != ""
    ensures ValidateUserInput(u) == (false, "TransactionId is required")
  {
  }
}
