/** A conflict answered after the money has moved: exactly which pairs of events can lead there. */
module ProtocolConflicts {
  import opened AccountLedger
  import Breaker
  import opened Contracts
  import opened Protocol
  import opened ProtocolInvariant
  import opened ProtocolRecovery
  import opened Rows
  import opened Timestamps

  /** A handler whose call succeeded is about to answer 409 because another event took its id. */
  ghost predicate LateConflict(s: State, t: nat) {
    && t in s.tasks && s.tasks[t].pc.Inserting?
    && s.tasks[t].event.eventId in s.gateway
    && !SameEvent(s.gateway[s.tasks[t].event.eventId].payload, s.tasks[t].event)
  }

  /** The handler's event is `b`, and the event on record is `a`. */
  ghost predicate LateConflictOf(s: State, t: nat, a: EventPayload, b: EventPayload) {
    LateConflict(s, t) && s.tasks[t].event == b && s.gateway[b.eventId].payload == a
  }

  /** Two different acceptable events that look the same to the Account Service. */
  ghost predicate WireConfuses(c: Config, a: EventPayload, b: EventPayload) {
    && ValidPayload(a) && ValidPayload(b) && ValidPayload(Sent(c, a))
    && SameEvent(Sent(c, a), Sent(c, b)) && !SameEvent(a, b)
  }

  lemma LateConflictNeedsConfusion(c: Config, s: State, t: nat)
    requires Inv(c, s) && LateConflict(s, t)
    ensures WireConfuses(c, s.gateway[s.tasks[t].event.eventId].payload, s.tasks[t].event)
  {
    var e := s.tasks[t].event;
    var first := s.gateway[e.eventId].payload;
    assert TaskOk(c, s, t, s.tasks[t]);
    assert first.eventId == e.eventId;
    var row := s.account[e.eventId].payload;
    assert SameEvent(row, Sent(c, first)) && SameEvent(row, Sent(c, e));
    SameEventValid(row, Sent(c, first));
  }

  lemma ConfusionLeadsToConflict(c: Config, a: EventPayload, b: EventPayload, at: Utc)
    requires ValidConfig(c) && WireConfuses(c, a, b)
    ensures exists s: State, t :: Reachable(c, s) && LateConflictOf(s, t, a, b)
  {
    hide SameEvent;
    var acts1 := Forward(c, Init, a, at);
    FirstIsCreated(c, a, at);
    ForwardRuns(c, Init, a, at);
    var s1 := Run(c, Init, acts1).value;
    var acts2 := Forward(c, s1, b, at);
    SecondIsReplayed(c, s1, a, b, at);
    ForwardRuns(c, s1, b, at);
    var s2 := Run(c, s1, acts2).value;
    RunAppend(c, Init, acts1, acts2);
    var insert := Insert(0, at);
    RunStep(c, Init, acts1 + acts2, insert);
    InsertMakesConflict(c, s2, a, b, at);
    assert Reachable(c, Step(c, s2, insert));
  }

  lemma SecondIsReplayed(c: Config, s: State, a: EventPayload, b: EventPayload, at: Utc)
    requires s.account == map[a.eventId := Row(Sent(c, a), AccountAudit(at))]
    requires ValidPayload(Sent(c, a)) && SameEvent(Sent(c, a), Sent(c, b))
    ensures ReplyCode(c, s, b, at) == 200
  {
    SameEventValid(Sent(c, a), Sent(c, b));
  }

  lemma InsertMakesConflict(c: Config, s: State, a: EventPayload, b: EventPayload, at: Utc)
    requires s.tasks == map[0 := Task(a, Inserting), 1 := Task(b, Inserting)]
    requires a.eventId == b.eventId && a.eventId !in s.gateway && !SameEvent(a, b)
    ensures Enabled(c, s, Insert(0, at)) && LateConflictOf(Step(c, s, Insert(0, at)), 1, a, b)
  {
  }

  /**
   For any two events: some run answers 409 to a handler of `b` after its downstream call
   succeeded, because `a` is on record, exactly when the conversion to floats makes these two
   different events look the same.
   */
  lemma LateConflictIff(c: Config, a: EventPayload, b: EventPayload, at: Utc)
    requires ValidConfig(c)
    ensures (exists s: State, t :: Reachable(c, s) && LateConflictOf(s, t, a, b)) <==> WireConfuses(c, a, b)
  {
    hide Reachable;
    if s: State, t :| Reachable(c, s) && LateConflictOf(s, t, a, b) {
      ReachableInv(c, s);
      LateConflictNeedsConfusion(c, s, t);
    }
    if WireConfuses(c, a, b) {
      ConfusionLeadsToConflict(c, a, b, at);
    }
  }

  /** The conversion keeps apart what has been submitted so far. */
  ghost predicate Faithful(c: Config, submitted: set<EventPayload>) {
    forall a <- submitted, b <- submitted :: SameEvent(Sent(c, a), Sent(c, b)) ==> SameEvent(a, b)
  }

  /** In a run whose submissions stay different on the wire no handler ever gets there, whatever races. */
  lemma FaithfulWireNeverConflictsLate(c: Config, s: State, t: nat)
    requires ValidConfig(c) && Reachable(c, s) && Faithful(c, s.past.submitted)
    ensures !LateConflict(s, t)
  {
    hide Reachable;
    ReachableInv(c, s);
    assert t in s.tasks ==> TaskOk(c, s, t, s.tasks[t]);
    if LateConflict(s, t) {
      LateConflictNeedsConfusion(c, s, t);
    }
  }

  /** A conversion that changes no amount makes a valid configuration, in which no run gets there. */
  lemma IdentityWireNeverConflictsLate(c: Config, s: State, t: nat)
    requires Breaker.ValidPolicy(c.policy) && forall d :: c.amounts(d) == d
    ensures ValidConfig(c)
    ensures Reachable(c, s) ==> !LateConflict(s, t)
  {
    hide Reachable;
    if Reachable(c, s) {
      forall a, b | a in s.past.submitted && b in s.past.submitted && SameEvent(Sent(c, a), Sent(c, b)) ensures SameEvent(a, b) {
        assert Sent(c, a) == a && Sent(c, b) == b;
      }
      FaithfulWireNeverConflictsLate(c, s, t);
    }
  }
}
