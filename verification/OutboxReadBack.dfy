/** Exactly when a token read back late does harm: when the row is leased, never attempted, and another
    worker may still send under the lease. Then, and only then, the run can go on, without any further
    harm, to transmissions to two addresses. */
module OutboxReadBack {
  import opened Options
  import opened OutboxModel
  import opened OutboxAddresses

  predicate TwoAddresses(sent: seq<Transmission>) {
    exists i, j :: 0 <= i < j < |sent| && sent[i].to != sent[j].to
  }

  /** The row is leased under `t` and nobody has marked an attempt. */
  predicate LeasedUntried(s: System, t: Time) {
    s.row.status.Processing? && s.row.lastAttemptAt == Some(t) && s.row.attempts == 0
  }

  /** The customer's primary address is `to`. */
  function Primary(to: Address): Facts {
    Facts(None, true, Some(to))
  }

  /** How far a worker is from marking an attempt. */
  function Distance(pc: Worker): nat {
    match pc
    case Stamped(_) => 3
    case Claimed(_) => 2
    case Loaded(_, _) => 1
    case Rebinding(_, _) => 1
    case _ => 0
  }

  /** What the worker does next on its way to marking: it finds its own stamp, and an unchanged address. */
  function TowardsMark(v: WorkerId, pc: Worker): Action {
    match pc
    case Stamped(_) => ReadBack(v)
    case Claimed(_) => Load(v)
    case Loaded(_, seen) => Evaluate(v, Primary(seen.recipient))
    case _ => RebindRecipient(v)
  }

  lemma OneStepTowards(s: System, v: WorkerId, t: Time)
    requires LeasedUntried(s, t) && v in s.workers && MayStillSend(s.workers[v], t) && !s.workers[v].Marking?
    ensures var a := TowardsMark(v, s.workers[v]); var s' := Step(s, a);
      && HarmlessStep(s, a) && LeasedUntried(s', t) && s'.history.sent == s.history.sent
      && s'.workers.Keys == s.workers.Keys
      && (forall w :: w in s.workers && w != v ==> s'.workers[w] == s.workers[w])
      && MayStillSend(s'.workers[v], t) && Distance(s'.workers[v]) < Distance(s.workers[v])
  {
  }

  /** A worker that may still send can get to where it marks, under the same lease. */
  lemma {:induction false} ReachMark(s: System, v: WorkerId, t: Time) returns (more: seq<Action>, address: Address)
    requires LeasedUntried(s, t) && v in s.workers && MayStillSend(s.workers[v], t)
    ensures Harmless(s, more) && LeasedUntried(Exec(s, more), t)
    ensures var s' := Exec(s, more);
      && s'.history.sent == s.history.sent && s'.workers.Keys == s.workers.Keys
      && (forall w :: w in s.workers && w != v ==> s'.workers[w] == s.workers[w])
      && s'.workers[v] == Marking(t, address)
    decreases Distance(s.workers[v])
  {
    if s.workers[v].Marking? {
      more, address := [], s.workers[v].recipient;
    } else {
      hide LeasedUntried, Step, MayStillSend, Distance, HarmlessStep;
      OneStepTowards(s, v, t);
      var a := TowardsMark(v, s.workers[v]);
      var rest;
      rest, address := ReachMark(Step(s, a), v, t);
      OneMore(s, [], a);
      assert [] + [a] == [a];
      more := [a] + rest;
      ExecPlus(s, [a], rest);
    }
  }

  /** A worker holding a lease under which another waits to mark can put its own address in, and both send. */
  lemma BothSend(s: System, v: WorkerId, w: WorkerId, t: Time, address: Address) returns (more: seq<Action>)
    requires LeasedUntried(s, t) && v != w && v in s.workers && w in s.workers
    requires s.workers[v] == Marking(t, address) && s.workers[w] == Claimed(t)
    ensures Harmless(s, more) && TwoAddresses(Exec(s, more).history.sent)
  {
    var other := address + s.row.recipient + "x";
    assert |other| > |address| && |other| > |s.row.recipient|;
    more := [Load(w), Evaluate(w, Primary(other)), RebindRecipient(w), MarkAttempt(w), Transmit(w, Accepted),
             MarkAttempt(v), Transmit(v, Accepted)];
    var s3 := OtherRebinds(s, v, w, t, address, other, more);
    var s7 := BothTransmit(s3, s, v, w, t, address, other, more);
    var n := |s.history.sent|;
    assert s7.history.sent[n].to == other && s7.history.sent[n + 1].to == address;
  }

  lemma OtherRebinds(s: System, v: WorkerId, w: WorkerId, t: Time, address: Address, other: Address, l: seq<Action>)
    returns (s3: System)
    requires LeasedUntried(s, t) && v != w && v in s.workers && w in s.workers
    requires s.workers[v] == Marking(t, address) && s.workers[w] == Claimed(t) && other != s.row.recipient
    requires |l| >= 3 && l[..3] == [Load(w), Evaluate(w, Primary(other)), RebindRecipient(w)]
    ensures Harmless(s, l[..3]) && s3 == Exec(s, l[..3]) && LeasedUntried(s3, t) && s3.history == s.history
    ensures v in s3.workers && w in s3.workers && s3.workers[v] == Marking(t, address) && s3.workers[w] == Marking(t, other)
  {
    OneMore(s, [], l[0]);
    OneMore(s, l[..1], l[1]);
    OneMore(s, l[..2], l[2]);
    assert l[0] == l[..3][0] && l[1] == l[..3][1] && l[2] == l[..3][2];
    assert [] + [l[0]] == l[..1] && l[..1] + [l[1]] == l[..2] && l[..2] + [l[2]] == l[..3];
    hide Exec, Harmless;
    var s1 := Step(s, l[0]);
    assert s1.workers[w] == Loaded(t, s.row);
    var s2 := Step(s1, l[1]);
    assert s2.workers[w] == Rebinding(t, other);
    s3 := Step(s2, l[2]);
  }

  lemma BothTransmit(s3: System, s: System, v: WorkerId, w: WorkerId, t: Time, address: Address, other: Address,
                     l: seq<Action>) returns (s7: System)
    requires |l| == 7 && s3 == Exec(s, l[..3]) && Harmless(s, l[..3]) && LeasedUntried(s3, t) && v != w
    requires v in s3.workers && w in s3.workers
    requires s3.workers[v] == Marking(t, address) && s3.workers[w] == Marking(t, other)
    requires l[3..] == [MarkAttempt(w), Transmit(w, Accepted), MarkAttempt(v), Transmit(v, Accepted)]
    ensures Harmless(s, l) && s7 == Exec(s, l)
    ensures s7.history.sent == s3.history.sent + [Transmission(other, true), Transmission(address, true)]
  {
    OneMore(s, l[..3], l[3]);
    OneMore(s, l[..4], l[4]);
    OneMore(s, l[..5], l[5]);
    OneMore(s, l[..6], l[6]);
    assert l[3] == l[3..][0] && l[4] == l[3..][1] && l[5] == l[3..][2] && l[6] == l[3..][3];
    assert l[..3] + [l[3]] == l[..4] && l[..4] + [l[4]] == l[..5] && l[..5] + [l[5]] == l[..6] && l[..6] + [l[6]] == l;
    hide Exec, Harmless;
    var s4 := Step(s3, l[3]);
    assert s4.workers[w] == Transmitting(t, other) && s4.row == s3.row.(attempts := 1);
    var s5 := Step(s4, l[4]);
    assert s5.workers[v] == Marking(t, address) && s5.row == s4.row;
    var s6 := Step(s5, l[5]);
    assert s6.workers[v] == Transmitting(t, address);
    s7 := Step(s6, l[6]);
  }

  /** A contested read-back has a continuation that transmits to two addresses. */
  lemma ContestedSendsTwice(s: System, w: WorkerId) returns (more: seq<Action>)
    requires w in s.workers && s.workers[w].Stamped? && !HarmlessStep(s, ReadBack(w))
    ensures var s' := Step(s, ReadBack(w)); Harmless(s', more) && TwoAddresses(Exec(s', more).history.sent)
  {
    var t := s.row.lastAttemptAt.value;
    var v :| v in s.workers && v != w && MayStillSend(s.workers[v], t);
    var s1 := Step(s, ReadBack(w));
    assert s1 == Put(s, w, Claimed(t));
    assert LeasedUntried(s1, t);
    hide Step, HarmlessStep, LeasedUntried, MayStillSend, TwoAddresses;
    var first, address := ReachMark(s1, v, t);
    var second := BothSend(Exec(s1, first), v, w, t, address);
    more := first + second;
    ExecPlus(s1, first, second);
  }

  /** A read-back leaves every harmless continuation with one address exactly when it is harmless. */
  lemma HarmlessExactlyWhenOneAddress(origin: System, run: seq<Action>, w: WorkerId)
    requires ReachedBy(origin, run) && w in Exec(origin, run).workers && Exec(origin, run).workers[w].Stamped?
    ensures var s := Exec(origin, run); var s' := Step(s, ReadBack(w));
      HarmlessStep(s, ReadBack(w)) <==>
        (forall more :: Harmless(s', more) ==> !TwoAddresses(Exec(s', more).history.sent))
  {
    hide Step, HarmlessStep, TwoAddresses, Fresh;
    var s, s' := Exec(origin, run), Step(Exec(origin, run), ReadBack(w));
    if HarmlessStep(s, ReadBack(w)) {
      OneMore(origin, run, ReadBack(w));
      forall more | Harmless(s', more) ensures !TwoAddresses(Exec(s', more).history.sent) {
        ExecPlus(origin, run + [ReadBack(w)], more);
        SentToOne(origin, run + [ReadBack(w)] + more);
      }
    } else {
      var _ := ContestedSendsTwice(s, w);
    }
  }

  lemma SentToOne(origin: System, run: seq<Action>)
    requires ReachedBy(origin, run)
    ensures !TwoAddresses(Exec(origin, run).history.sent)
  {
    RunAddress(origin, run);
  }
}
