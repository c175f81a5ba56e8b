/** The states a subscription can be in. */
module Subscriptions {

  datatype Status = Active | Trialing | PastDue | Unpaid | Canceled | Incomplete

  function StatusFromStripe(s: string): Status {
    if s == "active" then Active
    else if s == "trialing" then Trialing
    else if s == "past_due" then PastDue
    else if s == "unpaid" then Unpaid
    else if s == "canceled" then Canceled
    else Incomplete
  }

  function StripeName(status: Status): string {
    match status
    case Active => "active"
    case Trialing => "trialing"
    case PastDue => "past_due"
    case Unpaid => "unpaid"
    case Canceled => "canceled"
    case Incomplete => "incomplete"
  }

  /** Reading a state's own name gives that state, and every name that is no state's reads as incomplete. */
  lemma StatusRoundTrip(status: Status, s: string)
    ensures StatusFromStripe(StripeName(status)) == status
    ensures StatusFromStripe(s) != Incomplete ==> StripeName(StatusFromStripe(s)) == s
  {
    assert StripeName(Active)[0] == 'a' && StripeName(Trialing)[0] == 't' && StripeName(PastDue)[0] == 'p';
    assert StripeName(Unpaid)[0] == 'u' && StripeName(Canceled)[0] == 'c' && StripeName(Incomplete)[0] == 'i';
  }
}
