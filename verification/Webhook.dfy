/** The subscription webhook: resolving an event to an organization, applying it, and remembering that it was. */
module Webhook {
  import opened Prelude
  import opened Subscriptions

  /** Stripe ids are empty until captured; a period end of zero means unset. */
  datatype Subscription = Subscription(
    plan: string, status: Status, customer: string, stripeID: string, itemID: string, periodEnd: int)

  type Subs = map<string, Subscription>

  datatype Kind =
    CheckoutCompleted | SubscriptionChanged | SubscriptionDeleted | PaymentFailed | PaymentSucceeded | Unhandled

  datatype Event = Event(
    id: string, kind: Kind, objectID: string, subscription: string, customer: string, clientReference: string,
    status: string, currentPeriodEnd: int, metadataOrg: string, itemID: string, itemPeriodEnd: int)

  function EffectivePeriodEnd(e: Event): int {
    if e.currentPeriodEnd > 0 then e.currentPeriodEnd else e.itemPeriodEnd
  }

  function Advance(status: Status, escalate: bool): Status {
    match status
    case Canceled => Canceled
    case Unpaid => Unpaid
    case PastDue => if escalate then Unpaid else PastDue
    case _ => PastDue
  }

  function Clear(status: Status): Status {
    if status == PastDue || status == Unpaid then Active else status
  }

  // ---- resolution ----

  ghost predicate SomeStripeID(subs: Subs, id: string) {
    exists org :: org in subs && subs[org].stripeID == id
  }

  ghost predicate SomeCustomer(subs: Subs, customer: string) {
    exists org :: org in subs && subs[org].customer == customer
  }

  /** The organization ids an event names outright, in order, then its subscription id and its customer id. */
  datatype Keys = Keys(org1: string, org2: string, customer: string, stripeID: string)

  function KeysOf(e: Event): Keys {
    match e.kind
    case CheckoutCompleted => Keys(e.clientReference, e.metadataOrg, e.customer, "")
    case SubscriptionChanged => Keys(e.metadataOrg, "", e.customer, e.objectID)
    case SubscriptionDeleted => Keys(e.metadataOrg, "", e.customer, e.objectID)
    case _ => Keys(e.metadataOrg, e.clientReference, e.customer, e.subscription)
  }

  /** Which organization the lookup may return; a search by Stripe id may pick any match. */
  ghost predicate Resolves(subs: Subs, k: Keys, r: Option<string>) {
    if k.org1 != "" && k.org1 in subs then r == Some(k.org1)
    else if k.org2 != "" && k.org2 in subs then r == Some(k.org2)
    else if k.stripeID != "" && SomeStripeID(subs, k.stripeID) then
      r.Some? && r.value in subs && subs[r.value].stripeID == k.stripeID
    else if k.customer != "" && SomeCustomer(subs, k.customer) then
      r.Some? && r.value in subs && subs[r.value].customer == k.customer
    else r == None
  }

  // ---- application ----

  function Captured(captured: string, kept: string): string {
    if captured != "" then captured else kept
  }

  /** What an event makes of the subscription it resolved to. */
  function Transition(sub: Subscription, e: Event): Subscription {
    match e.kind
    case CheckoutCompleted =>
      sub.(stripeID := Captured(e.subscription, sub.stripeID),
           customer := Captured(e.customer, sub.customer),
           status := Active)
    case PaymentFailed => sub.(status := Advance(sub.status, false))
    case PaymentSucceeded => sub.(status := Clear(sub.status))
    case Unhandled => sub
    case _ =>
      sub.(status := if e.kind == SubscriptionDeleted then Canceled else StatusFromStripe(e.status),
           stripeID := Captured(e.objectID, sub.stripeID),
           customer := Captured(e.customer, sub.customer),
           itemID := Captured(e.itemID, sub.itemID),
           periodEnd := if EffectivePeriodEnd(e) > 0 then EffectivePeriodEnd(e) else sub.periodEnd)
  }

  function ApplyTo(subs: Subs, e: Event, org: Option<string>): Subs
    requires org.Some? ==> org.value in subs
  {
    match org
    case None => subs
    case Some(o) => subs[o := Transition(subs[o], e)]
  }

  ghost predicate Applied(subs: Subs, e: Event, subs': Subs) {
    if e.kind == Unhandled then subs' == subs
    else exists r :: Resolves(subs, KeysOf(e), r) && subs' == ApplyTo(subs, e, r)
  }

  /** No two organizations share a subscription id or a customer id. */
  ghost predicate Unambiguous(subs: Subs) {
    forall a, b :: a in subs && b in subs && a != b ==>
      && (subs[a].stripeID != "" ==> subs[a].stripeID != subs[b].stripeID)
      && (subs[a].customer != "" ==> subs[a].customer != subs[b].customer)
  }

  lemma ResolvesUniquely(subs: Subs, k: Keys, r: Option<string>, q: Option<string>)
    requires Unambiguous(subs) && Resolves(subs, k, r) && Resolves(subs, k, q)
    ensures r == q
  {
  }

  lemma AppliedUniquely(subs: Subs, e: Event, s1: Subs, s2: Subs)
    requires Unambiguous(subs) && Applied(subs, e, s1) && Applied(subs, e, s2)
    ensures s1 == s2
  {
    if e.kind != Unhandled {
      var r :| Resolves(subs, KeysOf(e), r) && s1 == ApplyTo(subs, e, r);
      var q :| Resolves(subs, KeysOf(e), q) && s2 == ApplyTo(subs, e, q);
      ResolvesUniquely(subs, KeysOf(e), r, q);
    }
  }

  // ---- what each kind of event comes to, field by field ----

  /** What a checkout makes of a subscription. */
  function CheckedOut(e: Event): Subscription -> Subscription {
    (sub: Subscription) =>
      Subscription(sub.plan, Active,
                   if e.customer == "" then sub.customer else e.customer,
                   if e.subscription == "" then sub.stripeID else e.subscription,
                   sub.itemID, sub.periodEnd)
  }

  function Reported(e: Event): Subscription -> Subscription {
    (sub: Subscription) =>
      Subscription(sub.plan,
                   if e.kind == SubscriptionDeleted then Canceled else StatusFromStripe(e.status),
                   if e.customer == "" then sub.customer else e.customer,
                   if e.objectID == "" then sub.stripeID else e.objectID,
                   if e.itemID == "" then sub.itemID else e.itemID,
                   if e.currentPeriodEnd > 0 then e.currentPeriodEnd
                   else if e.itemPeriodEnd > 0 then e.itemPeriodEnd else sub.periodEnd)
  }

  function OutOfDunning(): Subscription -> Subscription {
    (sub: Subscription) =>
      if sub.status == PastDue || sub.status == Unpaid then sub.(status := Active) else sub
  }

  function IntoDunning(): Subscription -> Subscription {
    (sub: Subscription) =>
      if sub.status == Active || sub.status == Trialing || sub.status == Incomplete
      then sub.(status := PastDue) else sub
  }

  /** Exactly this change of the one subscription that these keys resolve to; no change if they resolve to none. */
  ghost predicate Rewrites(subs: Subs, k: Keys, subs': Subs, change: Subscription -> Subscription) {
    exists r :: Resolves(subs, k, r) && (r.Some? ==> r.value in subs)
                && subs' == if r.Some? then subs[r.value := change(subs[r.value])] else subs
  }

  lemma AppliedRewrites(subs: Subs, e: Event, subs': Subs, change: Subscription -> Subscription)
    requires e.kind != Unhandled && forall sub :: Transition(sub, e) == change(sub)
    ensures Applied(subs, e, subs') <==> Rewrites(subs, KeysOf(e), subs', change)
  {
    if Applied(subs, e, subs') {
      var r :| Resolves(subs, KeysOf(e), r) && subs' == ApplyTo(subs, e, r);
      assert r.Some? ==> Transition(subs[r.value], e) == change(subs[r.value]);
    }
    if Rewrites(subs, KeysOf(e), subs', change) {
      var r :| Resolves(subs, KeysOf(e), r) && (r.Some? ==> r.value in subs)
               && subs' == if r.Some? then subs[r.value := change(subs[r.value])] else subs;
      assert subs' == ApplyTo(subs, e, r);
    }
  }

  /** A completed checkout activates, whatever the state was, and captures the ids it names. */
  lemma CheckoutIs(subs: Subs, e: Event, subs': Subs)
    requires e.kind == CheckoutCompleted
    ensures Applied(subs, e, subs')
            <==> Rewrites(subs, Keys(e.clientReference, e.metadataOrg, e.customer, ""), subs', CheckedOut(e))
  {
    AppliedRewrites(subs, e, subs', CheckedOut(e));
  }

  /** A subscription event takes over the state it reports, a deletion that of a canceled one, and captures what ids
      and period end it names. */
  lemma SubscriptionEventIs(subs: Subs, e: Event, subs': Subs)
    requires e.kind == SubscriptionChanged || e.kind == SubscriptionDeleted
    ensures Applied(subs, e, subs')
            <==> Rewrites(subs, Keys(e.metadataOrg, "", e.customer, e.objectID), subs', Reported(e))
  {
    AppliedRewrites(subs, e, subs', Reported(e));
  }

  /** A successful payment ends dunning and does nothing else. */
  ghost predicate Paid(subs: Subs, e: Event, subs': Subs) {
    Rewrites(subs, Keys(e.metadataOrg, e.clientReference, e.customer, e.subscription), subs',
             OutOfDunning())
  }

  /** A failed payment starts dunning and does nothing to a subscription that is in dunning or canceled already. */
  ghost predicate Declined(subs: Subs, e: Event, subs': Subs) {
    Rewrites(subs, Keys(e.metadataOrg, e.clientReference, e.customer, e.subscription), subs',
             IntoDunning())
  }

  lemma PaymentIs(subs: Subs, e: Event, subs': Subs)
    ensures e.kind == PaymentSucceeded ==> (Applied(subs, e, subs') <==> Paid(subs, e, subs'))
    ensures e.kind == PaymentFailed ==> (Applied(subs, e, subs') <==> Declined(subs, e, subs'))
  {
    if e.kind == PaymentSucceeded {
      AppliedRewrites(subs, e, subs', OutOfDunning());
    }
    if e.kind == PaymentFailed {
      AppliedRewrites(subs, e, subs', IntoDunning());
    }
  }

  /** Payments change no id, so the next event finds the organization it would have found before. */
  lemma PaymentsKeepResolution(subs: Subs, e: Event, subs': Subs, k: Keys, r: Option<string>)
    requires (e.kind == PaymentSucceeded || e.kind == PaymentFailed) && Applied(subs, e, subs')
    ensures Resolves(subs', k, r) <==> Resolves(subs, k, r)
  {
    assert subs'.Keys == subs.Keys;
    forall org | org in subs
      ensures subs'[org].stripeID == subs[org].stripeID && subs'[org].customer == subs[org].customer
    {
    }
    assert SomeStripeID(subs', k.stripeID) <==> SomeStripeID(subs, k.stripeID);
    assert SomeCustomer(subs', k.customer) <==> SomeCustomer(subs, k.customer);
  }

  /** A failed payment followed by a successful one for the same organization leaves it active unless it is canceled,
      with all else as it was: an active organization's subscription is restored exactly, a trial is not. */
  lemma FailedThenPaid(subs: Subs, failed: Event, mid: Subs, paid: Event, subs': Subs, org: string)
    requires failed.kind == PaymentFailed && Applied(subs, failed, mid)
    requires paid.kind == PaymentSucceeded && Applied(mid, paid, subs')
    requires org in subs && forall r :: Resolves(subs, KeysOf(failed), r) ==> r == Some(org)
    requires forall r :: Resolves(subs, KeysOf(paid), r) ==> r == Some(org)
    ensures subs' == subs[org := subs[org].(status := if subs[org].status == Canceled then Canceled else Active)]
    ensures subs' == subs <==> subs[org].status == Active || subs[org].status == Canceled
  {
    PaymentIs(subs, failed, mid);
    PaymentIs(mid, paid, subs');
    forall r | Resolves(mid, KeysOf(paid), r) ensures r == Some(org) {
      PaymentsKeepResolution(subs, failed, mid, KeysOf(paid), r);
    }
    assert mid == ApplyTo(subs, failed, Some(org)) && subs' == ApplyTo(mid, paid, Some(org));
    assert subs'[org] == subs[org].(status := if subs[org].status == Canceled then Canceled else Active);
  }

  /** Dunning has two steps, the second one only on request, and no way out of a cancellation. */
  lemma DunningLadder(status: Status)
    ensures status == Active || status == Trialing || status == Incomplete ==>
              forall escalate :: Advance(status, escalate) == PastDue && Advance(PastDue, escalate)
                                                                         == if escalate then Unpaid else PastDue
    ensures forall escalate :: Clear(Advance(status, escalate)) == if status == Canceled then Canceled else Active
  {
  }

  lemma TransitionTwice(sub: Subscription, e: Event)
    ensures Transition(Transition(sub, e), e) == Transition(sub, e)
  {
  }

  lemma ApplyToTwice(subs: Subs, e: Event, org: Option<string>)
    requires org.Some? ==> org.value in subs
    ensures ApplyTo(ApplyTo(subs, e, org), e, org) == ApplyTo(subs, e, org)
  {
    if org.Some? {
      TransitionTwice(subs[org.value], e);
    }
  }

  /** Applying an event changes the very ids the next lookup searches by, yet the next lookup finds the same
      organization. */
  lemma ResolvesAgain(subs: Subs, e: Event, r: Option<string>, q: Option<string>)
    requires Unambiguous(subs) && e.kind != Unhandled && Resolves(subs, KeysOf(e), r)
    requires Resolves(ApplyTo(subs, e, r), KeysOf(e), q)
    ensures q == r
  {
    var k := KeysOf(e);
    if r.None? {
      ResolvesUniquely(subs, k, r, q);
    } else {
      var org := r.value;
      var subs' := ApplyTo(subs, e, r);
      var byOrg := (k.org1 != "" && k.org1 in subs) || (k.org2 != "" && k.org2 in subs);
      if !byOrg {
        if k.stripeID != "" && SomeStripeID(subs, k.stripeID) {
          assert subs'[org].stripeID == k.stripeID;
          assert SomeStripeID(subs', k.stripeID);
        } else {
          assert subs'[org].customer == k.customer;
          assert SomeCustomer(subs', k.customer);
          forall o | o in subs' && subs'[o].stripeID == k.stripeID && k.stripeID != "" ensures o == org {
          }
        }
      }
    }
  }

  /** Applying an event twice in a row equals applying it once, for every event and every unambiguous store. */
  lemma ApplyIsIdempotent(subs: Subs, e: Event, s1: Subs, s2: Subs)
    requires Unambiguous(subs) && Applied(subs, e, s1) && Applied(s1, e, s2)
    ensures s2 == s1
  {
    if e.kind != Unhandled {
      var r :| Resolves(subs, KeysOf(e), r) && s1 == ApplyTo(subs, e, r);
      var q :| Resolves(s1, KeysOf(e), q) && s2 == ApplyTo(s1, e, q);
      ResolvesAgain(subs, e, r, q);
      ApplyToTwice(subs, e, r);
    }
  }

  // ---- deliveries ----

  datatype Outcome = Processed | Duplicate | Failed

  datatype State = State(subs: Subs, processed: set<string>)

  /** One delivery: how the peek, the upsert and the mark go. */
  datatype Faults = Faults(peek: bool, upsert: Fault, mark: Fault)

  /** What a delivery may do: skip a marked event, fail without effect, apply without marking, or apply and mark. */
  ghost predicate Delivered(s: State, e: Event, s': State, out: Outcome) {
    match out
    case Duplicate => e.id != "" && e.id in s.processed && s' == s
    case Processed =>
      && (e.id == "" || e.id !in s.processed)
      && Applied(s.subs, e, s'.subs)
      && s'.processed == if e.id == "" then s.processed else s.processed + {e.id}
    case Failed =>
      || s' == s
      || (&& (e.id == "" || e.id !in s.processed)
          && Applied(s.subs, e, s'.subs)
          && (s'.processed == s.processed || (e.id != "" && s'.processed == s.processed + {e.id})))
  }

  /** A marked event never changes anything again, whatever goes wrong with its redelivery. */
  lemma MarkedIsInert(s: State, e: Event, s': State, out: Outcome)
    requires e.id != "" && e.id in s.processed && Delivered(s, e, s', out)
    ensures s' == s && out != Processed
  {
  }

  /** The states and outcomes of delivering one event over and over. */
  ghost predicate Redelivered(states: seq<State>, outs: seq<Outcome>, e: Event) {
    && |states| == |outs| + 1
    && forall k :: 0 <= k < |outs| ==> Delivered(states[k], e, states[k + 1], outs[k])
  }

  /** Redelivery has exactly-once effect: starting from an event not yet marked, after any number of failing,
      repeated and successful deliveries the subscriptions are those of before or those of one application, they are
      the latter once a delivery reported success, and an event that is marked has been applied. */
  lemma {:induction false} RedeliveryAppliesOnce(states: seq<State>, outs: seq<Outcome>, e: Event, once: Subs, n: nat)
    requires Redelivered(states, outs, e) && Unambiguous(states[0].subs) && n <= |outs|
    requires Applied(states[0].subs, e, once) && (e.id == "" || e.id !in states[0].processed)
    ensures states[n].subs == states[0].subs || states[n].subs == once
    ensures (exists k :: 0 <= k < n && outs[k] == Processed) ==> states[n].subs == once
    ensures e.id != "" && e.id in states[n].processed ==> states[n].subs == once
    decreases n
  {
    if n == 0 {
    } else {
      RedeliveryAppliesOnce(states, outs, e, once, n - 1);
      var before, after := states[n - 1], states[n];
      assert Delivered(before, e, after, outs[n - 1]);
      if Applied(before.subs, e, after.subs) {
        if before.subs == states[0].subs {
          AppliedUniquely(states[0].subs, e, after.subs, once);
        }
        if before.subs == once {
          ApplyIsIdempotent(states[0].subs, e, once, after.subs);
        }
      }
    }
  }

  const NO_EVENT := Event("", Unhandled, "", "", "", "", "", 0, "", "", 0)

  function OtherThan(status: Status): string {
    if status == Active then "trialing" else "active"
  }

  /** Where two organizations share an id, some event lands on the one and, delivered again, on the other. */
  lemma SharedIdBreaksIt(subs: Subs, a: string, b: string)
    requires a in subs && b in subs && a != b
    requires (subs[a].stripeID != "" && subs[a].stripeID == subs[b].stripeID)
             || (subs[a].customer != "" && subs[a].customer == subs[b].customer)
    ensures exists e, s1, s2 :: Applied(subs, e, s1) && Applied(s1, e, s2) && s2 != s1
  {
    var byStripe := subs[a].stripeID != "" && subs[a].stripeID == subs[b].stripeID;
    var changed := NO_EVENT.(kind := SubscriptionChanged, status := OtherThan(subs[b].status));
    var e := if byStripe then changed.(objectID := subs[a].stripeID) else changed.(customer := subs[a].customer);
    var s1 := subs[a := Transition(subs[a], e)];
    assert SomeStripeID(subs, subs[a].stripeID) && SomeCustomer(subs, subs[a].customer);
    assert Resolves(subs, KeysOf(e), Some(a));
    assert Applied(subs, e, s1);
    assert s1[b] == subs[b] && SomeStripeID(s1, s1[b].stripeID) && SomeCustomer(s1, s1[b].customer);
    assert Resolves(s1, KeysOf(e), Some(b));
    var s2 := s1[b := Transition(s1[b], e)];
    assert Applied(s1, e, s2);
    assert s2[b].status != s1[b].status;
  }

  /** So unambiguous ids are exactly what idempotence needs. */
  lemma IdempotentIffUnambiguous(subs: Subs)
    ensures (forall e, s1, s2 :: Applied(subs, e, s1) && Applied(s1, e, s2) ==> s2 == s1) <==> Unambiguous(subs)
  {
    if Unambiguous(subs) {
      forall e, s1, s2 | Applied(subs, e, s1) && Applied(s1, e, s2) ensures s2 == s1 {
        ApplyIsIdempotent(subs, e, s1, s2);
      }
    } else {
      var a, b :| a in subs && b in subs && a != b
                  && !(&& (subs[a].stripeID != "" ==> subs[a].stripeID != subs[b].stripeID)
                       && (subs[a].customer != "" ==> subs[a].customer != subs[b].customer));
      SharedIdBreaksIt(subs, a, b);
    }
  }

  // ---- redelivery after other events ----

  /** What an event would write is there already: the guard a caller can check before applying it. */
  predicate Settled(sub: Subscription, e: Event) {
    match e.kind
    case CheckoutCompleted =>
      && sub.status == Active
      && (e.subscription != "" ==> sub.stripeID == e.subscription)
      && (e.customer != "" ==> sub.customer == e.customer)
    case PaymentFailed => sub.status == PastDue || sub.status == Unpaid || sub.status == Canceled
    case PaymentSucceeded => sub.status != PastDue && sub.status != Unpaid
    case Unhandled => true
    case _ =>
      && sub.status == (if e.kind == SubscriptionDeleted then Canceled else StatusFromStripe(e.status))
      && (e.objectID != "" ==> sub.stripeID == e.objectID)
      && (e.customer != "" ==> sub.customer == e.customer)
      && (e.itemID != "" ==> sub.itemID == e.itemID)
      && (EffectivePeriodEnd(e) > 0 ==> sub.periodEnd == EffectivePeriodEnd(e))
  }

  /** Applying an event changes nothing exactly when the subscription it resolves to is settled for it. */
  lemma HarmlessIff(subs: Subs, e: Event, org: string)
    requires org in subs
    ensures ApplyTo(subs, e, Some(org)) == subs <==> Settled(subs[org], e)
  {
    var t := Transition(subs[org], e);
    assert t == subs[org] <==> Settled(subs[org], e);
    assert ApplyTo(subs, e, Some(org))[org] == t;
    if t == subs[org] {
      assert subs[org := t] == subs;
    }
  }

  /** A run of events, the k-th applied to the organization `orgs[k]` it resolves to. */
  ghost predicate Deliveries(states: seq<Subs>, events: seq<Event>, orgs: seq<Option<string>>) {
    && |states| == |events| + 1 && |orgs| == |events|
    && forall k :: 0 <= k < |events| ==>
         && Resolves(states[k], KeysOf(events[k]), orgs[k])
         && states[k + 1] == ApplyTo(states[k], events[k], orgs[k])
  }

  /** What the first n events make of one organization's subscription: those that resolve elsewhere leave it alone. */
  function Folded(sub: Subscription, events: seq<Event>, orgs: seq<Option<string>>, org: string, n: nat): Subscription
    requires n <= |events| == |orgs|
  {
    if n == 0 then sub
    else
      var before := Folded(sub, events, orgs, org, n - 1);
      if orgs[n - 1] == Some(org) then Transition(before, events[n - 1]) else before
  }

  lemma {:induction false} DeliveriesFold(states: seq<Subs>, events: seq<Event>, orgs: seq<Option<string>>,
                                          org: string, n: nat)
    requires Deliveries(states, events, orgs) && org in states[0] && n <= |events|
    ensures org in states[n] && states[n][org] == Folded(states[0][org], events, orgs, org, n)
  {
    if n == 0 {
    } else {
      DeliveriesFold(states, events, orgs, org, n - 1);
      assert states[n] == ApplyTo(states[n - 1], events[n - 1], orgs[n - 1]);
    }
  }

  /** Whatever the lookup picks, applying the event changes nothing. */
  ghost predicate Harmless(subs: Subs, e: Event) {
    forall after :: Applied(subs, e, after) ==> after == subs
  }

  /** An application is harmless exactly when every subscription the event may resolve to is settled for it. */
  lemma HarmlessApplicationIff(subs: Subs, e: Event)
    ensures Harmless(subs, e)
            <==> forall r :: Resolves(subs, KeysOf(e), r) && r.Some? ==> Settled(subs[r.value], e)
  {
    if Harmless(subs, e) {
      forall r | Resolves(subs, KeysOf(e), r) && r.Some? ensures Settled(subs[r.value], e) {
        assert e.kind != Unhandled ==> Applied(subs, e, ApplyTo(subs, e, r));
        HarmlessIff(subs, e, r.value);
      }
    } else {
      var after :| Applied(subs, e, after) && after != subs;
      var r :| Resolves(subs, KeysOf(e), r) && after == ApplyTo(subs, e, r);
      HarmlessIff(subs, e, r.value);
    }
  }

  lemma {:induction false} DeliveriesKeepOrgs(states: seq<Subs>, events: seq<Event>, orgs: seq<Option<string>>, n: nat)
    requires Deliveries(states, events, orgs) && n <= |events|
    ensures states[n].Keys == states[0].Keys
  {
    if n == 0 {
    } else {
      DeliveriesKeepOrgs(states, events, orgs, n - 1);
      assert states[n] == ApplyTo(states[n - 1], events[n - 1], orgs[n - 1]);
    }
  }

  /** An event delivered again after any sequence of other events is resolved again, and the events in between may
      have changed the ids it is resolved by. It is harmless exactly when, for every organization it may resolve to
      now, the events that resolved there, its own first delivery included, have left or brought back everything it
      would write. */
  lemma LateRedeliveryIff(subs: Subs, e: Event, first: Option<string>, states: seq<Subs>, events: seq<Event>,
                          orgs: seq<Option<string>>)
    requires Resolves(subs, KeysOf(e), first)
    requires Deliveries(states, events, orgs) && states[0] == ApplyTo(subs, e, first)
    ensures var last := states[|events|];
            && last.Keys == subs.Keys
            && (Harmless(last, e)
                <==> forall r :: Resolves(last, KeysOf(e), Some(r)) ==>
                       var delivered := if first == Some(r) then Transition(subs[r], e) else subs[r];
                       Settled(Folded(delivered, events, orgs, r, |events|), e))
  {
    var last := states[|events|];
    DeliveriesKeepOrgs(states, events, orgs, |events|);
    HarmlessApplicationIff(last, e);
    forall r | r in subs
      ensures last[r] == Folded(if first == Some(r) then Transition(subs[r], e) else subs[r], events, orgs, r, |events|)
    {
      DeliveriesFold(states, events, orgs, r, |events|);
    }
  }

  /** Did one of the organization ids an event names decide? */
  predicate NamesOrg(subs: Subs, k: Keys) {
    (k.org1 != "" && k.org1 in subs) || (k.org2 != "" && k.org2 in subs)
  }

  /** An event that resolved to an organization does so again, in an unambiguous store, exactly when it named it
      outright, or its subscription id decides and is the organization's, or nobody has that id and the customer id is
      the organization's. */
  lemma ResolvesSameIff(subs: Subs, last: Subs, k: Keys, org: string)
    requires Resolves(subs, k, Some(org)) && last.Keys == subs.Keys && Unambiguous(last)
    ensures (forall r :: Resolves(last, k, r) ==> r == Some(org))
            <==> || NamesOrg(subs, k)
                 || (if k.stripeID != "" && SomeStripeID(last, k.stripeID) then last[org].stripeID == k.stripeID
                     else k.customer != "" && last[org].customer == k.customer)
  {
    assert org in last;
    if !NamesOrg(subs, k) {
      if k.stripeID != "" && SomeStripeID(last, k.stripeID) {
        var x :| x in last && last[x].stripeID == k.stripeID;
        assert Resolves(last, k, Some(x));
      } else if k.customer != "" && SomeCustomer(last, k.customer) {
        var x :| x in last && last[x].customer == k.customer;
        assert Resolves(last, k, Some(x));
      } else {
        assert Resolves(last, k, None);
        assert k.customer != "" ==> last[org].customer != k.customer;
      }
    }
  }

  lemma {:induction false} UntouchedFold(sub: Subscription, events: seq<Event>, orgs: seq<Option<string>>,
                                         org: string, n: nat)
    requires n <= |events| == |orgs| && forall k :: 0 <= k < n ==> orgs[k] != Some(org)
    ensures Folded(sub, events, orgs, org, n) == sub
  {
    if n == 0 {
    } else {
      UntouchedFold(sub, events, orgs, org, n - 1);
    }
  }

  /** Another organization has taken over the subscription id an event names, and so the event. */
  predicate TakenOver(last: Subs, k: Keys, org: string, other: string) {
    !NamesOrg(last, k) && k.stripeID != "" && other in last && other != org && last[other].stripeID == k.stripeID
  }

  /** If every event in between was another organization's, a redelivery is harmless exactly when nobody has taken
      over the subscription id it names, or whoever has is settled for it. */
  lemma OthersKeepRedeliveryHarmlessIff(subs: Subs, e: Event, org: string, states: seq<Subs>, events: seq<Event>,
                                        orgs: seq<Option<string>>)
    requires Resolves(subs, KeysOf(e), Some(org))
    requires Deliveries(states, events, orgs) && states[0] == ApplyTo(subs, e, Some(org))
    requires Unambiguous(states[|events|]) && forall k :: 0 <= k < |orgs| ==> orgs[k] != Some(org)
    ensures var last := states[|events|];
            Harmless(last, e)
            <==> forall other :: TakenOver(last, KeysOf(e), org, other) ==> Settled(last[other], e)
  {
    var k, last := KeysOf(e), states[|events|];
    DeliveriesKeepOrgs(states, events, orgs, |events|);
    DeliveriesFold(states, events, orgs, org, |events|);
    UntouchedFold(states[0][org], events, orgs, org, |events|);
    assert last[org] == states[0][org] == Transition(subs[org], e);
    TransitionTwice(subs[org], e);
    HarmlessIff(states[0], e, org);
    ApplyToTwice(subs, e, Some(org));
    assert Settled(last[org], e);
    HarmlessApplicationIff(last, e);
    if other :| TakenOver(last, k, org, other) {
      assert SomeStripeID(last, k.stripeID) && Resolves(last, k, Some(other));
      forall r | Resolves(last, k, r) ensures r == Some(other) {
        ResolvesUniquely(last, k, r, Some(other));
      }
    } else if e.kind != Unhandled {
      StaysFound(subs, e, org, last);
    }
  }

  lemma StaysFound(subs: Subs, e: Event, org: string, last: Subs)
    requires Resolves(subs, KeysOf(e), Some(org)) && e.kind != Unhandled
    requires last.Keys == subs.Keys && Unambiguous(last) && last[org] == Transition(subs[org], e)
    requires forall other :: !TakenOver(last, KeysOf(e), org, other)
    ensures forall r :: Resolves(last, KeysOf(e), r) ==> r == Some(org)
  {
    var k := KeysOf(e);
    ResolvesSameIff(subs, last, k, org);
    if !NamesOrg(subs, k) && k.stripeID != "" && SomeStripeID(last, k.stripeID) {
      var x :| x in last && last[x].stripeID == k.stripeID;
      assert !TakenOver(last, k, org, x);
    }
  }

  /** A subscription in a given state, known by its customer and perhaps by a subscription id. */
  function Known(status: Status, customer: string, stripeID: string): Subscription {
    Subscription("", status, customer, stripeID, "", 0)
  }

  /** A failed payment, and a change that gives organization b the subscription named there. */
  function Failed(id: string, cus: string): Event {
    NO_EVENT.(kind := PaymentFailed, subscription := id, customer := cus)
  }

  function Takes(id: string, b: string, status: string): Event {
    NO_EVENT.(kind := SubscriptionChanged, objectID := id, metadataOrg := b, status := status)
  }

  lemma FirstDeliveries(a: string, b: string, id: string, cus: string, other: string, status: string)
    requires a != b && b != "" && id != "" && cus != "" && other != cus && StatusFromStripe(status) == Active
    ensures var before: Subs := map[a := Known(Active, cus, ""), b := Known(Active, other, "")];
            var between: Subs := map[a := Known(PastDue, cus, ""), b := Known(Active, other, "")];
            var after: Subs := map[a := Known(PastDue, cus, ""), b := Known(Active, other, id)];
            Applied(before, Failed(id, cus), between) && Applied(between, Takes(id, b, status), after)
  {
    var before: Subs := map[a := Known(Active, cus, ""), b := Known(Active, other, "")];
    var between: Subs := map[a := Known(PastDue, cus, ""), b := Known(Active, other, "")];
    assert before[a].customer == cus;
    assert Resolves(before, KeysOf(Failed(id, cus)), Some(a));
    assert ApplyTo(before, Failed(id, cus), Some(a)) == between;
    assert Resolves(between, KeysOf(Takes(id, b, status)), Some(b));
    assert ApplyTo(between, Takes(id, b, status), Some(b))
           == map[a := Known(PastDue, cus, ""), b := Known(Active, other, id)];
  }

  lemma TwoUnambiguous(a: string, b: string, x: Subscription, y: Subscription)
    requires a != b && x.customer != y.customer && (x.stripeID != y.stripeID || x.stripeID == "")
    ensures Unambiguous(map[a := x, b := y])
  {
  }

  lemma RedeliveryLands(subs: Subs, e: Event, b: string)
    requires e.kind == PaymentFailed && !NamesOrg(subs, KeysOf(e)) && e.subscription != ""
    requires b in subs && subs[b].stripeID == e.subscription && Unambiguous(subs)
    ensures forall again :: Applied(subs, e, again) ==> again == ApplyTo(subs, e, Some(b))
  {
    assert SomeStripeID(subs, e.subscription) && Resolves(subs, KeysOf(e), Some(b));
    assert Applied(subs, e, ApplyTo(subs, e, Some(b)));
    forall again | Applied(subs, e, again) ensures again == ApplyTo(subs, e, Some(b)) {
      AppliedUniquely(subs, e, again, ApplyTo(subs, e, Some(b)));
    }
  }

  /** One event of another organization is enough: it gives that organization the subscription id the first event
      names, and the redelivery puts it into dunning. The store is unambiguous all along. */
  lemma TakenOverIdBreaksIt(a: string, b: string, id: string, cus: string, other: string, status: string)
    requires a != b && b != "" && id != "" && cus != "" && other != cus && StatusFromStripe(status) == Active
    ensures var before: Subs := map[a := Known(Active, cus, ""), b := Known(Active, other, "")];
            var between: Subs := map[a := Known(PastDue, cus, ""), b := Known(Active, other, "")];
            var after: Subs := map[a := Known(PastDue, cus, ""), b := Known(Active, other, id)];
            && Unambiguous(before) && Unambiguous(between) && Unambiguous(after)
            && Applied(before, Failed(id, cus), between) && Applied(between, Takes(id, b, status), after)
            && forall again :: Applied(after, Failed(id, cus), again) ==>
                 again == after[b := Known(PastDue, other, id)]
  {
    FirstDeliveries(a, b, id, cus, other, status);
    TwoUnambiguous(a, b, Known(Active, cus, ""), Known(Active, other, ""));
    TwoUnambiguous(a, b, Known(PastDue, cus, ""), Known(Active, other, ""));
    TwoUnambiguous(a, b, Known(PastDue, cus, ""), Known(Active, other, id));
    RedeliveryLands(map[a := Known(PastDue, cus, ""), b := Known(Active, other, id)], Failed(id, cus), b);
  }

  /** An event keeps the store unambiguous exactly when the ids it leaves on its organization are nobody else's. */
  lemma UnambiguousKeptIff(subs: Subs, e: Event, org: string)
    requires Unambiguous(subs) && org in subs
    ensures var t := Transition(subs[org], e);
            Unambiguous(ApplyTo(subs, e, Some(org)))
            <==> forall other :: other in subs && other != org ==>
                   && (t.stripeID != "" ==> subs[other].stripeID != t.stripeID)
                   && (t.customer != "" ==> subs[other].customer != t.customer)
  {
    var after := ApplyTo(subs, e, Some(org));
    if Unambiguous(after) {
      forall other | other in subs && other != org
        ensures after[org].stripeID != "" ==> subs[other].stripeID != after[org].stripeID
        ensures after[org].customer != "" ==> subs[other].customer != after[org].customer
      {
        assert after[other] == subs[other];
      }
    }
  }

  /** Idempotence does not survive an event in between: an unmarked activation delivered again after a failed
      payment takes the organization out of dunning. */
  lemma LateRedeliveryClearsDunning()
    ensures var sub := Subscription("", Incomplete, "cus", "", "", 0);
            var subs: Subs := map["a" := sub];
            var activated := NO_EVENT.(kind := SubscriptionChanged, customer := "cus", status := "active");
            var failed := NO_EVENT.(kind := PaymentFailed, customer := "cus");
            var s1, s2 := subs["a" := sub.(status := Active)], subs["a" := sub.(status := PastDue)];
            Applied(subs, activated, s1) && Applied(s1, failed, s2) && Applied(s2, activated, s1)
  {
    var sub := Subscription("", Incomplete, "cus", "", "", 0);
    var subs: Subs := map["a" := sub];
    var activated := NO_EVENT.(kind := SubscriptionChanged, customer := "cus", status := "active");
    var failed := NO_EVENT.(kind := PaymentFailed, customer := "cus");
    var s1, s2 := subs["a" := sub.(status := Active)], subs["a" := sub.(status := PastDue)];
    assert subs["a"].customer == s1["a"].customer == s2["a"].customer == "cus";
    assert Resolves(subs, KeysOf(activated), Some("a"));
    assert Resolves(s1, KeysOf(failed), Some("a"));
    assert Resolves(s2, KeysOf(activated), Some("a"));
    assert s1["a" := Transition(s1["a"], failed)] == s2;
    assert s2["a" := Transition(s2["a"], activated)] == s1;
  }

  // ---- the service ----

  class Service {
    var subs: Subs
    var processed: set<string>

    constructor ()
      ensures subs == map[] && processed == {}
    {
      subs, processed := map[], {};
    }

    method FindBy(stripeID: string, customer: string) returns (org: Option<string>)
      requires (stripeID == "") != (customer == "")
      ensures org.Some? ==> org.value in subs
                            && if stripeID != "" then subs[org.value].stripeID == stripeID
                               else subs[org.value].customer == customer
      ensures org.None? ==> !(if stripeID != "" then SomeStripeID(subs, stripeID) else SomeCustomer(subs, customer))
    {
      var rest := subs.Keys;
      while rest != {}
        invariant rest <= subs.Keys
        invariant forall o :: o in subs && o !in rest ==>
                    if stripeID != "" then subs[o].stripeID != stripeID else subs[o].customer != customer
        decreases |rest|
      {
        var o :| o in rest;
        rest := rest - {o};
        if (if stripeID != "" then subs[o].stripeID == stripeID else subs[o].customer == customer) {
          return Some(o);
        }
      }
      return None;
    }

    method ResolveOrg(k: Keys) returns (org: Option<string>)
      ensures Resolves(subs, k, org)
    {
      if k.org1 != "" && k.org1 in subs {
        return Some(k.org1);
      }
      if k.org2 != "" && k.org2 in subs {
        return Some(k.org2);
      }
      if k.stripeID != "" {
        org := FindBy(k.stripeID, "");
        if org.Some? {
          return;
        }
      }
      if k.customer != "" {
        org := FindBy("", k.customer);
        return;
      }
      return None;
    }

    method Upsert(org: string, sub: Subscription, fault: Fault) returns (ok: bool)
      modifies `subs
      ensures ok <==> fault == NoFault
      ensures subs == if fault == FailBefore then old(subs) else old(subs)[org := sub]
    {
      if fault != FailBefore {
        subs := subs[org := sub];
      }
      ok := fault == NoFault;
    }

    /** Apply an event: field by field onto the resolved subscription, then one upsert unless nothing is to change. */
    method Apply(e: Event, fault: Fault) returns (ok: bool)
      modifies `subs
      ensures ok ==> Applied(old(subs), e, subs)
      ensures !ok ==> subs == old(subs) || Applied(old(subs), e, subs)
      ensures ok && e.kind == PaymentSucceeded ==> Paid(old(subs), e, subs)
      ensures ok && e.kind == PaymentFailed ==> Declined(old(subs), e, subs)
    {
      if e.kind == Unhandled {
        return true;
      }
      var found := ResolveOrg(KeysOf(e));
      if found.None? {
        return true;
      }
      var org := found.value;
      var sub := subs[org];
      match e.kind {
        case CheckoutCompleted =>
          if e.subscription != "" { sub := sub.(stripeID := e.subscription); }
          if e.customer != "" { sub := sub.(customer := e.customer); }
          sub := sub.(status := Active);
        case PaymentFailed =>
          if sub.status == Canceled || sub.status == Unpaid || sub.status == PastDue {
            assert subs[org := Transition(subs[org], e)] == subs;
            return true;
          }
          sub := sub.(status := PastDue);
        case PaymentSucceeded =>
          if sub.status != PastDue && sub.status != Unpaid {
            assert subs[org := Transition(subs[org], e)] == subs;
            return true;
          }
          sub := sub.(status := Active);
        case _ =>
          sub := sub.(status := if e.kind == SubscriptionDeleted then Canceled else StatusFromStripe(e.status));
          if e.objectID != "" { sub := sub.(stripeID := e.objectID); }
          if e.customer != "" { sub := sub.(customer := e.customer); }
          if e.itemID != "" { sub := sub.(itemID := e.itemID); }
          var pe := EffectivePeriodEnd(e);
          if pe > 0 { sub := sub.(periodEnd := pe); }
      }
      assert sub == Transition(subs[org], e);
      ok := Upsert(org, sub, fault);
    }

    /** Peek, apply, and only then mark. */
    method ProcessEvent(e: Event, faults: Faults) returns (out: Outcome)
      modifies this
      ensures Delivered(State(old(subs), old(processed)), e, State(subs, processed), out)
    {
      if e.id != "" {
        if !faults.peek {
          return Failed;
        }
        if e.id in processed {
          return Duplicate;
        }
      }
      var ok := Apply(e, faults.upsert);
      if !ok {
        return Failed;
      }
      if e.id != "" {
        if faults.mark != FailBefore {
          processed := processed + {e.id};
        }
        if faults.mark != NoFault {
          return Failed;
        }
      }
      return Processed;
    }
  }
}
