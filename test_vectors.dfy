/**
 * The sample data of the repository's API test script: four users, and the
 * function names of its five interactions, as concrete inputs for the
 * classifier and the user sync.
 */
module TestVectors {
  import opened Wrappers
  import opened Collections
  import opened Text
  import opened Queries
  import opened SyncUsersRoute

  const TestUsers: seq<UserEntry> := [
    UserEntry(Some("john_doe_001"), Some("John Doe"), Some("sales")),
    UserEntry(Some("jane_smith_002"), Some("Jane Smith"), Some("finance")),
    UserEntry(Some("bob_wilson_003"), Some("Bob Wilson"), Some("project_team")),
    UserEntry(Some("alice_brown_004"), Some("Alice Brown"), Some("sales"))
  ]

  /** `generate_proposal` counts as a quotation through its "proposal". */
  lemma ProposalIsQuotation()
    ensures IsQuotationFunction("generate_proposal")
  {
    assert LikeAt("generate_proposal", "proposal", 9);
    ContainsIgnoringCaseIsLike("generate_proposal", "proposal");
  }

  lemma ProposalIsNoReport()
    ensures !IsReportFunction("generate_proposal")
  {
    NotReportFunction("generate_proposal");
  }

  lemma WriteReportIsReport()
    ensures IsReportFunction("write_report")
  {
    assert LikeAt("write_report", "report", 6);
    ContainsIgnoringCaseIsLike("write_report", "report");
  }

  lemma WriteReportIsNoQuotation()
    ensures !IsQuotationFunction("write_report")
  {
    NotQuotationFunction("write_report");
  }

  /** `search_customer` and `verify_payment` are neither. */
  lemma SearchCustomerIsNoQuotation()
    ensures !IsQuotationFunction("search_customer")
  {
    NotQuotationFunction("search_customer");
  }

  lemma SearchCustomerIsNoReport()
    ensures !IsReportFunction("search_customer")
  {
    NotReportFunction("search_customer");
  }

  lemma VerifyPaymentIsNoQuotation()
    ensures !IsQuotationFunction("verify_payment")
  {
    NotQuotationFunction("verify_payment");
  }

  lemma VerifyPaymentIsNoReport()
    ensures !IsReportFunction("verify_payment")
  {
    NotReportFunction("verify_payment");
  }

  /** Every sample user is complete, so the sync reports four successes and no errors list. */
  lemma SampleUsersAllValid()
    ensures Filter(TestUsers, EntryValid) == TestUsers
    ensures Filter(TestUsers, Rejected) == []
  {
    var u := TestUsers;
    assert forall e :: e in u ==> EntryValid(e);
    FilterAll(u, EntryValid);
    FilterPartition(u, EntryValid, Rejected);
  }
}
