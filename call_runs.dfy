/** Properties of the receiver over whole sequences of broadcasts. */
module CallRuns {
  import opened Wrappers
  import opened Receiver

  /** One broadcast together with what the platform answers during it. */
  datatype Delivery = Delivery(intent: Intent, callLog: Option<string>, prefs: Prefs)

  predicate IsRinging(d: Delivery) { d.intent.state == Some(ExtraStateRinging) }
  predicate IsOffHook(d: Delivery) { d.intent.state == Some(ExtraStateOffHook) }
  predicate IsIdle(d: Delivery) { d.intent.state == Some(ExtraStateIdle) }

  /** The fields after delivering `ds`, in order, starting from `s`. */
  function Final(s: Session, ds: seq<Delivery>): Session
    decreases |ds|
  {
    if ds == [] then s
    else
      var n := |ds| - 1;
      Step(Final(s, ds[..n]), ds[n].intent, ds[n].callLog, ds[n].prefs).session
  }

  /** The SMS sent (or not) by each delivery of `ds`, starting from `s`. */
  function Trace(s: Session, ds: seq<Delivery>): (t: seq<Option<Sms>>)
    ensures |t| == |ds|
    decreases |ds|
  {
    if ds == [] then []
    else
      var n := |ds| - 1;
      Trace(s, ds[..n]) + [Step(Final(s, ds[..n]), ds[n].intent, ds[n].callLog, ds[n].prefs).sms]
  }

  /** The number of messages sent in a trace. */
  function Sends(t: seq<Option<Sms>>): nat
  {
    if t == [] then 0 else Sends(t[..|t| - 1]) + (if t[|t| - 1].Some? then 1 else 0)
  }

  /** The number of RINGING broadcasts in `ds`. */
  function Rings(ds: seq<Delivery>): nat
  {
    if ds == [] then 0 else Rings(ds[..|ds| - 1]) + (if IsRinging(ds[|ds| - 1]) then 1 else 0)
  }

  /** No RINGING and no IDLE broadcast at all. */
  predicate Unmarked(ds: seq<Delivery>)
  {
    forall k :: 0 <= k < |ds| ==> !IsRinging(ds[k]) && !IsIdle(ds[k])
  }

  /** No RINGING and no IDLE broadcast after position `j`. */
  predicate QuietAfter(ds: seq<Delivery>, j: nat)
  {
    forall k :: j < k < |ds| ==> !IsRinging(ds[k]) && !IsIdle(ds[k])
  }

  lemma AppendOne(s: Session, ds: seq<Delivery>, d: Delivery)
    ensures Final(s, ds + [d]) == Step(Final(s, ds), d.intent, d.callLog, d.prefs).session
    ensures Trace(s, ds + [d]) == Trace(s, ds) + [Step(Final(s, ds), d.intent, d.callLog, d.prefs).sms]
  {
    assert (ds + [d])[..|ds|] == ds;
  }

  /** The fields after a run, described without stepping: `lastState` comes
      from the last broadcast; `isIncoming` and `savedNumber` come from the
      last RINGING or IDLE broadcast, and from the start state if there is
      none. */
  lemma {:induction false} SessionAfter(s: Session, ds: seq<Delivery>)
    ensures ds != [] ==> Final(s, ds).lastState == StateOf(ds[|ds| - 1].intent.state)
    ensures Unmarked(ds) ==>
              Final(s, ds).isIncoming == s.isIncoming && Final(s, ds).savedNumber == s.savedNumber
    ensures forall j :: 0 <= j < |ds| && IsRinging(ds[j]) && QuietAfter(ds, j) ==>
              Final(s, ds).isIncoming && Final(s, ds).savedNumber == ds[j].intent.number
    ensures forall j :: 0 <= j < |ds| && IsIdle(ds[j]) && QuietAfter(ds, j) ==>
              !Final(s, ds).isIncoming && Final(s, ds).savedNumber.None?
    decreases |ds|
  {
    if ds != [] {
      var n := |ds| - 1;
      var pre := ds[..n];
      var d := ds[n];
      assert ds == pre + [d];
      AppendOne(s, pre, d);
      SessionAfter(s, pre);
      var t := Final(s, pre);
      if !IsRinging(d) && !IsIdle(d) {
        // a quiet last broadcast keeps the fields; the marker lies in `pre`
        forall j | 0 <= j < n && QuietAfter(ds, j)
          ensures QuietAfter(pre, j)
        {
          forall k | j + 1 <= k < n ensures !IsRinging(pre[k]) && !IsIdle(pre[k]) {
            assert pre[k] == ds[k];
          }
        }
        if Unmarked(ds) {
          assert Unmarked(pre) by {
            forall k | 0 <= k < n ensures !IsRinging(pre[k]) && !IsIdle(pre[k]) {
              assert pre[k] == ds[k];
            }
          }
        }
      } else {
        // the last broadcast is itself the marker
        forall j | 0 <= j < n ensures !QuietAfter(ds, j) {
          assert !(!IsRinging(ds[n]) && !IsIdle(ds[n]));
        }
        assert !Unmarked(ds) by {
          assert !(!IsRinging(ds[n]) && !IsIdle(ds[n]));
        }
      }
    }
  }

  /** Every run either has no RINGING or IDLE broadcast, or a last one. */
  lemma {:induction false} LastMarker(ds: seq<Delivery>)
    ensures Unmarked(ds) || exists j :: 0 <= j < |ds| && (IsRinging(ds[j]) || IsIdle(ds[j])) && QuietAfter(ds, j)
    decreases |ds|
  {
    if ds != [] {
      var n := |ds| - 1;
      if IsRinging(ds[n]) || IsIdle(ds[n]) {
        assert QuietAfter(ds, n);
      } else {
        var pre := ds[..n];
        LastMarker(pre);
        if Unmarked(pre) {
          assert Unmarked(ds) by {
            forall k | 0 <= k < |ds| ensures !IsRinging(ds[k]) && !IsIdle(ds[k]) {
              if k < n { assert ds[k] == pre[k]; }
            }
          }
        } else {
          var j :| 0 <= j < n && (IsRinging(pre[j]) || IsIdle(pre[j])) && QuietAfter(pre, j);
          assert ds[j] == pre[j];
          assert QuietAfter(ds, j) by {
            forall k | j + 1 <= k < |ds| ensures !IsRinging(ds[k]) && !IsIdle(ds[k]) {
              if k < n { assert ds[k] == pre[k]; }
            }
          }
        }
      }
    }
  }

  /** Starting from a fresh process, an IDLE broadcast sends exactly when the
      broadcast before it was OFFHOOK, a RINGING has been seen since the last
      IDLE, a number is known (saved or from the call log) and the
      configuration allows sending. */
  lemma IdleSendsIff(ds: seq<Delivery>, d: Delivery)
    requires IsIdle(d)
    ensures Trace(Initial(), ds + [d])[|ds|].Some? <==>
              && ds != [] && IsOffHook(ds[|ds| - 1])
              && (exists j :: 0 <= j < |ds| && IsRinging(ds[j]) && QuietAfter(ds, j)
                               && Target(ds[j].intent.number, d.callLog).Some?)
              && GateOpen(d.prefs)
  {
    var t := Final(Initial(), ds);
    AppendOne(Initial(), ds, d);
    SessionAfter(Initial(), ds);
    LastMarker(ds);
    assert ds != [] ==> (t.lastState == OffHook <==> IsOffHook(ds[|ds| - 1]));
    assert t.isIncoming <==> exists j :: 0 <= j < |ds| && IsRinging(ds[j]) && QuietAfter(ds, j);
    // the last RINGING is the one whose number was saved
    assert t.isIncoming ==> (Target(t.savedNumber, d.callLog).Some? <==>
      exists j :: 0 <= j < |ds| && IsRinging(ds[j]) && QuietAfter(ds, j)
                  && Target(ds[j].intent.number, d.callLog).Some?);
  }

  /** Every sent message is paid for by a RINGING broadcast: each RINGING arms
      at most one send, and the arming is dropped by the next IDLE. */
  lemma {:induction false} SendsBoundedByRings(s: Session, ds: seq<Delivery>)
    ensures Sends(Trace(s, ds)) + (if Final(s, ds).isIncoming then 1 else 0)
            <= Rings(ds) + (if s.isIncoming then 1 else 0)
    decreases |ds|
  {
    if ds != [] {
      var n := |ds| - 1;
      var pre := ds[..n];
      assert ds == pre + [ds[n]];
      AppendOne(s, pre, ds[n]);
      SendsBoundedByRings(s, pre);
      var t := Trace(s, ds);
      assert t[..n] == Trace(s, pre);
    }
  }

  /** A fresh process sends at most as many messages as it has seen calls ring. */
  lemma AtMostOneSendPerRing(ds: seq<Delivery>)
    ensures Sends(Trace(Initial(), ds)) <= Rings(ds)
  {
    SendsBoundedByRings(Initial(), ds);
  }

  /** A process whose auto-send setting is off (or absent) never sends. */
  lemma {:induction false} DisabledNeverSends(s: Session, ds: seq<Delivery>)
    requires forall k :: 0 <= k < |ds| ==> !GateOpen(ds[k].prefs)
    ensures forall k :: 0 <= k < |ds| ==> Trace(s, ds)[k].None?
    decreases |ds|
  {
    if ds != [] {
      var n := |ds| - 1;
      var pre := ds[..n];
      assert ds == pre + [ds[n]];
      AppendOne(s, pre, ds[n]);
      DisabledNeverSends(s, pre);
    }
  }

  /** RINGING(a), OFFHOOK, IDLE from any state sends exactly one message, to
      `a`, with the message configured at IDLE time (none when the
      configuration forbids it), and leaves the fields as a fresh process has
      them. The OFFHOOK and IDLE broadcasts may carry any number extra. */
  lemma AnsweredCallSendsOnce(s: Session, r: Delivery, o: Delivery, i: Delivery, a: string)
    requires IsRinging(r) && r.intent.number == Some(a) && IsOffHook(o) && IsIdle(i)
    ensures Trace(s, [r, o, i])
            == [None, None, if GateOpen(i.prefs) then Some(Sms(a, i.prefs[KeyMessage].s)) else None]
    ensures Final(s, [r, o, i]) == Initial()
  {
    AppendOne(s, [], r);
    AppendOne(s, [r], o);
    AppendOne(s, [r, o], i);
    assert [r] + [o] == [r, o];
    assert [r, o] + [i] == [r, o, i];
  }

  /** RINGING with no number, OFFHOOK, IDLE falls back to the call log
      consulted at IDLE time, and sends nothing when that is empty too. */
  lemma AnsweredUnknownCallerUsesCallLog(s: Session, r: Delivery, o: Delivery, i: Delivery)
    requires IsRinging(r) && r.intent.number.None? && IsOffHook(o) && IsIdle(i)
    ensures Trace(s, [r, o, i])
            == [None, None, if i.callLog.Some? && GateOpen(i.prefs)
                            then Some(Sms(i.callLog.value, i.prefs[KeyMessage].s)) else None]
    ensures Final(s, [r, o, i]) == Initial()
  {
    AppendOne(s, [], r);
    AppendOne(s, [r], o);
    AppendOne(s, [r, o], i);
    assert [r] + [o] == [r, o];
    assert [r, o] + [i] == [r, o, i];
  }

  /** A call that rings and stops without being answered sends nothing and
      leaves the fields as a fresh process has them. */
  lemma MissedCallSendsNothing(s: Session, r: Delivery, i: Delivery)
    requires IsRinging(r) && IsIdle(i)
    ensures Trace(s, [r, i]) == [None, None]
    ensures Final(s, [r, i]) == Initial()
  {
    AppendOne(s, [], r);
    AppendOne(s, [r], i);
    assert [r] + [i] == [r, i];
  }

  /** An outgoing call (OFFHOOK without a pending RINGING) sends nothing. */
  lemma OutgoingCallSendsNothing(s: Session, o: Delivery, i: Delivery)
    requires !s.isIncoming && IsOffHook(o) && IsIdle(i)
    ensures Trace(s, [o, i]) == [None, None]
    ensures Final(s, [o, i]) == Initial()
  {
    AppendOne(s, [], o);
    AppendOne(s, [o], i);
    assert [o] + [i] == [o, i];
  }

  /** A repeated IDLE broadcast never sends: the first one already moved
      `lastState` to IDLE. */
  lemma RepeatedIdleSendsNothing(s: Session, ds: seq<Delivery>, d1: Delivery, d2: Delivery)
    requires IsIdle(d1) && IsIdle(d2)
    ensures Trace(s, ds + [d1, d2])[|ds| + 1].None?
  {
    AppendOne(s, ds, d1);
    AppendOne(s, ds + [d1], d2);
    assert ds + [d1] + [d2] == ds + [d1, d2];
  }

  /** A second RINGING without a number overwrites the saved one, whatever
      the first carried, so the answered call is then messaged at the number
      the call log gives at IDLE time. */
  lemma RingingWithoutNumberForgetsCaller(s: Session, r1: Delivery, r2: Delivery, o: Delivery, i: Delivery)
    requires IsRinging(r1) && IsRinging(r2) && r2.intent.number.None? && IsOffHook(o) && IsIdle(i)
    ensures Trace(s, [r1, r2, o, i])
            == [None, None, None, if i.callLog.Some? && GateOpen(i.prefs)
                                  then Some(Sms(i.callLog.value, i.prefs[KeyMessage].s)) else None]
  {
    AppendOne(s, [], r1);
    AppendOne(s, [r1], r2);
    AppendOne(s, [r1, r2], o);
    AppendOne(s, [r1, r2, o], i);
    assert [r1] + [r2] == [r1, r2];
    assert [r1, r2] + [o] == [r1, r2, o];
    assert [r1, r2, o] + [i] == [r1, r2, o, i];
  }
}
