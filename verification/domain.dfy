/** internal/domain/models.go: customer statuses. */
module Domain {
  import opened Text

  const ACTIVE: string := "active"

  function NormalizeCustomerStatus(status: string): string { ToLower(TrimSpace(status)) }

  function CustomerStatusOrDefault(status: string): string {
    var s := NormalizeCustomerStatus(status);
    if s == "" then ACTIVE else s
  }

  predicate CustomerStatusIsActive(status: string) { NormalizeCustomerStatus(status) == ACTIVE }

  lemma LowerIsTrimmed(s: string)
    requires Trimmed(s)
    ensures Trimmed(ToLower(s)) && ToLower(ToLower(s)) == ToLower(s)
  {
    assert forall c :: IsSpace(Lower(c)) <==> IsSpace(c);
  }

  /** A status as the store saves it is active, to a query that compares it with `active`
      exactly as much as to a caller that normalises it first. */
  lemma StoredStatusReadsTheSame(status: string)
    ensures var stored := CustomerStatusOrDefault(status);
            CustomerStatusIsActive(stored) <==> stored == ACTIVE
  {
    TrimmedIsFixed(status);
    var t := TrimSpace(status);
    LowerIsTrimmed(t);
    TrimmedIsFixed(ToLower(t));
    if ToLower(t) == "" {
      assert Trimmed(ACTIVE);
      TrimmedIsFixed(ACTIVE);
      assert ToLower(ACTIVE) == ACTIVE;
    }
  }
}
