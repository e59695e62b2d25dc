/** What the activity monitor guarantees about one workspace over whole runs of ticks. */
module ActivityRuns {
  import opened Text
  import opened ActivityMonitor

  /** `watches[k]` is what the monitor holds before tick `k`. */
  ghost predicate IsTrace(watches: seq<Watch>, inputs: seq<Input>)
  {
    && |watches| == |inputs| + 1
    && watches[0] == Watch(Idle, None, None)
    && forall k :: 0 <= k < |inputs| ==> watches[k + 1] == Observe(watches[k], inputs[k])
  }

  // ---------- Attaching clears, missing sessions wait for a complete snapshot ----------

  /** A tick that sees the pane attached never asks for attention, whatever the agent reports. */
  lemma AttachedNeverAttention(m: Watch, i: Input)
    requires i.obs.Some? && i.obs.value.attached
    ensures Next(m, i) != Attention
    ensures i.writeOk ==> Observe(m, i).state != Attention
  {}

  /** An incomplete snapshot leaves an unobserved workspace as stored. */
  lemma IncompleteSnapshotChangesNothing(m: Watch, i: Input)
    requires i.obs.None? && !i.complete
    ensures Observe(m, i) == m.(state := Prev(m, i))
  {}

  /** An unobserved workspace goes idle exactly when the snapshot is complete and the write succeeds;
      otherwise it stays as stored, or as known if the table cannot be read. */
  lemma MissingGoesIdle(m: Watch, i: Input)
    requires i.obs.None?
    ensures Observe(m, i) ==
            m.(state := if i.complete && i.writeOk then Idle else if i.readOk then i.row else m.state)
  {}

  // ---------- One observed tick ----------

  /** Output within the last five seconds, seen without a report. */
  ghost predicate Active(i: Input)
    requires i.obs.Some?
  {
    i.obs.value.claudeLike && i.now - i.obs.value.lastActivity <= 5
  }

  /** Without a report, a pane is running exactly while its agent produces output; it asks for attention
      exactly when the agent is quiet, nobody is attached, and it already asked or was running and has
      written at least five seconds after the user left. */
  lemma UnreportedIff(m: Watch, i: Input)
    requires i.obs.Some? && ReportOf(i).None?
    ensures Next(m, i) == Running <==> Active(i)
    ensures var prev := if i.readOk then i.row else m.state;
      var left := if m.detachedSince.Some? then m.detachedSince.value else i.now;
      Next(m, i) == Attention <==>
        && i.obs.value.claudeLike && i.now - i.obs.value.lastActivity > 5 && !i.obs.value.attached
        && (prev == Attention || (prev == Running && i.obs.value.lastActivity >= left + 5))
  {}

  /** A fresh report of a live agent decides the bucket, except that attention is not asked of a user
      who is attached or has seen a report at least as new; without a live agent the bucket is idle. */
  lemma ReportedIff(m: Watch, i: Input)
    requires i.obs.Some? && i.readOk && i.stored.Some?
    ensures Next(m, i) ==
            if !i.obs.value.claudeLike then Idle
            else if i.stored.value.bucket != Attention then i.stored.value.bucket
            else if i.obs.value.attached then Idle
            else if m.acked.Some? && i.stored.value.stamp <= m.acked.value then Idle
            else Attention
  {}

  /** The bucket changes to the next one exactly when the write succeeds. */
  lemma RecordedIff(m: Watch, i: Input)
    requires i.obs.Some?
    ensures Observe(m, i).state == if i.writeOk then Next(m, i) else if i.readOk then i.row else m.state
  {
    hide NextState;
  }

  // ---------- Detachment ----------

  predicate SeenAttached(i: Input) { i.obs.Some? && i.obs.value.attached }

  predicate SeenDetached(i: Input) { i.obs.Some? && !i.obs.value.attached }

  /** Before tick `n`, every detached sighting has been followed by an attached one. */
  ghost predicate NoneSinceAttached(inputs: seq<Input>, n: nat)
    requires n <= |inputs|
  {
    forall k :: 0 <= k < n && SeenDetached(inputs[k]) ==> exists l :: k < l < n && SeenAttached(inputs[l])
  }

  /** Tick `i` is the first detached sighting since the last attached one, as of tick `n`. */
  ghost predicate FirstDetached(inputs: seq<Input>, i: nat, n: nat)
    requires n <= |inputs|
  {
    && i < n && SeenDetached(inputs[i])
    && NoneSinceAttached(inputs, i)
    && forall k :: i <= k < n ==> !SeenAttached(inputs[k])
  }

  /** The recorded detach time is the time of the first detached sighting since the last attached one. */
  lemma {:induction false} DetachedSinceIsFirstSighting(watches: seq<Watch>, inputs: seq<Input>, n: nat)
    requires IsTrace(watches, inputs) && n <= |inputs|
    ensures watches[n].detachedSince.None? ==> NoneSinceAttached(inputs, n)
    ensures watches[n].detachedSince.Some? ==>
              exists i: nat :: FirstDetached(inputs, i, n) && inputs[i].now == watches[n].detachedSince.value
  {
    if n > 0 {
      var p := n - 1;
      DetachedSinceIsFirstSighting(watches, inputs, p);
      assert watches[n] == Observe(watches[p], inputs[p]);
      if SeenAttached(inputs[p]) {
      } else if watches[p].detachedSince.Some? {
        var i: nat :| FirstDetached(inputs, i, p) && inputs[i].now == watches[p].detachedSince.value;
        assert FirstDetached(inputs, i, n);
      } else if SeenDetached(inputs[p]) {
        assert FirstDetached(inputs, p, n);
      } else {
        forall k | 0 <= k < n && SeenDetached(inputs[k]) ensures exists l :: k < l < n && SeenAttached(inputs[l]) {
          assert k < p;
          var l :| k < l < p && SeenAttached(inputs[l]);
        }
      }
    }
  }

  // ---------- Attention is earned ----------

  /** No agent reports, and nobody but the monitor writes the table. */
  ghost predicate Alone(watches: seq<Watch>, inputs: seq<Input>)
    requires |watches| == |inputs| + 1
  {
    forall k :: 0 <= k < |inputs| ==> ReportOf(inputs[k]).None? && Prev(watches[k], inputs[k]) == watches[k].state
  }

  /** Tick `j` turned a quiet detached run into attention. */
  ghost predicate Raised(watches: seq<Watch>, inputs: seq<Input>, j: nat)
    requires |watches| == |inputs| + 1 && j < |inputs|
  {
    && watches[j].state == Running && watches[j + 1].state == Attention
    && SeenDetached(inputs[j]) && inputs[j].obs.value.claudeLike
    && exists i: nat :: FirstDetached(inputs, i, j + 1)
         && inputs[j].obs.value.lastActivity >= inputs[i].now + DETACH_SETTLE_SECS
  }

  /** Since tick `j`, before tick `n`, attention was never cleared: no attached sighting was recorded. */
  ghost predicate UnclearedSince(inputs: seq<Input>, j: nat, n: nat)
    requires n <= |inputs|
  {
    forall k :: j < k < n && SeenAttached(inputs[k]) ==> !inputs[k].writeOk
  }

  lemma RaisedStep(watches: seq<Watch>, inputs: seq<Input>, p: nat)
    requires IsTrace(watches, inputs) && p < |inputs| && Alone(watches, inputs)
    requires watches[p].state != Attention && watches[p + 1].state == Attention
    ensures Raised(watches, inputs, p)
  {
    var m, i := watches[p], inputs[p];
    assert watches[p + 1] == Observe(m, i);
    assert ReportOf(i).None? && Prev(m, i) == m.state;
    DetachedSinceIsFirstSighting(watches, inputs, p + 1);
    assert SeenDetached(i) && watches[p + 1].detachedSince == DetachedSince(m, i.obs.value, i.now);
  }

  /** Without reports and other writers, a workspace asking for attention has finished a run while
      detached, with output at least five seconds into that detachment, and has not been cleared. */
  lemma {:induction false} AttentionIsEarned(watches: seq<Watch>, inputs: seq<Input>, n: nat)
    requires IsTrace(watches, inputs) && n <= |inputs| && Alone(watches, inputs)
    requires watches[n].state == Attention
    ensures exists j: nat :: j < n && Raised(watches, inputs, j) && UnclearedSince(inputs, j, n)
  {
    assert n > 0;
    var p := n - 1;
    assert watches[n] == Observe(watches[p], inputs[p]);
    assert ReportOf(inputs[p]).None? && Prev(watches[p], inputs[p]) == watches[p].state;
    if watches[p].state == Attention {
      AttentionIsEarned(watches, inputs, p);
      var j: nat :| j < p && Raised(watches, inputs, j) && UnclearedSince(inputs, j, p);
      if SeenAttached(inputs[p]) { AttachedNeverAttention(watches[p], inputs[p]); }
      assert UnclearedSince(inputs, j, n);
    } else {
      RaisedStep(watches, inputs, p);
      assert UnclearedSince(inputs, p, n);
    }
  }

  /** The tick leaves attention standing: nothing was recorded, the workspace was not seen in an
      incomplete snapshot, or its agent is still quiet with nobody attached. */
  ghost predicate Holds(i: Input)
  {
    || !i.writeOk
    || (i.obs.None? && !i.complete)
    || (i.obs.Some? && i.obs.value.claudeLike && !i.obs.value.attached && i.now - i.obs.value.lastActivity > 5)
  }

  lemma AttentionHoldsIff(m: Watch, i: Input)
    requires ReportOf(i).None? && Prev(m, i) == m.state == Attention
    ensures Observe(m, i).state == Attention <==> Holds(i)
  {}

  /** A run seen to go quiet while detached, with output at least five seconds after the first detached
      sighting since the last attached one, is raised to attention if the write succeeds. */
  lemma QuietRunIsRaised(watches: seq<Watch>, inputs: seq<Input>, j: nat)
    requires IsTrace(watches, inputs) && j < |inputs| && Alone(watches, inputs)
    requires watches[j].state == Running && SeenDetached(inputs[j]) && inputs[j].writeOk
    requires inputs[j].obs.value.claudeLike && inputs[j].now - inputs[j].obs.value.lastActivity > 5
    requires exists i: nat :: FirstDetached(inputs, i, j + 1) && inputs[j].obs.value.lastActivity >= inputs[i].now + 5
    ensures Raised(watches, inputs, j)
  {
    var m, tick := watches[j], inputs[j];
    var i: nat :| FirstDetached(inputs, i, j + 1) && tick.obs.value.lastActivity >= inputs[i].now + 5;
    assert watches[j + 1] == Observe(m, tick);
    assert ReportOf(tick).None? && Prev(m, tick) == m.state;
    DetachedSinceIsFirstSighting(watches, inputs, j);
    if m.detachedSince.Some? {
      var k: nat :| FirstDetached(inputs, k, j) && inputs[k].now == m.detachedSince.value;
      OneFirstDetached(inputs, i, k, j);
    }
    UnreportedIff(m, tick);
    hide NextState;
  }

  lemma OneFirstDetached(inputs: seq<Input>, i: nat, k: nat, j: nat)
    requires j < |inputs| && FirstDetached(inputs, i, j + 1) && FirstDetached(inputs, k, j)
    ensures i == k
  {}

  /** Tick `j` raised attention and every tick since, before tick `n`, let it stand. */
  ghost predicate RaisedAndHeld(watches: seq<Watch>, inputs: seq<Input>, j: nat, n: nat)
    requires |watches| == |inputs| + 1 && n <= |inputs|
  {
    j < n && Raised(watches, inputs, j) && forall k :: j < k < n ==> Holds(inputs[k])
  }

  lemma HeldLonger(watches: seq<Watch>, inputs: seq<Input>, j: nat, p: nat)
    requires |watches| == |inputs| + 1 && p < |inputs|
    ensures j < p ==>
              (RaisedAndHeld(watches, inputs, j, p + 1) <==> RaisedAndHeld(watches, inputs, j, p) && Holds(inputs[p]))
    ensures RaisedAndHeld(watches, inputs, p, p + 1) <==> Raised(watches, inputs, p)
    ensures RaisedAndHeld(watches, inputs, j, p + 1) ==> j <= p
  {
    hide Raised, Holds;
  }

  lemma AttentionStep(watches: seq<Watch>, inputs: seq<Input>, p: nat)
    requires IsTrace(watches, inputs) && p < |inputs| && Alone(watches, inputs)
    ensures watches[p + 1].state == Attention <==>
            if watches[p].state == Attention then Holds(inputs[p]) else Raised(watches, inputs, p)
    ensures watches[p].state == Attention ==> !Raised(watches, inputs, p)
  {
    var m, i := watches[p], inputs[p];
    assert watches[p + 1] == Observe(m, i);
    assert ReportOf(i).None? && Prev(m, i) == m.state;
    if m.state == Attention {
      AttentionHoldsIff(m, i);
    } else if watches[p + 1].state == Attention {
      RaisedStep(watches, inputs, p);
    }
  }

  /** Without reports and other writers, a workspace asks for attention exactly when some tick raised it
      and every tick since has let it stand. */
  lemma {:induction false} AttentionIff(watches: seq<Watch>, inputs: seq<Input>, n: nat)
    requires IsTrace(watches, inputs) && n <= |inputs| && Alone(watches, inputs)
    ensures watches[n].state == Attention <==> exists j: nat :: RaisedAndHeld(watches, inputs, j, n)
  {
    if n > 0 {
      var p := n - 1;
      AttentionIff(watches, inputs, p);
      AttentionStep(watches, inputs, p);
      hide IsTrace, Alone, Raised, Holds, RaisedAndHeld;
      HeldLonger(watches, inputs, p, p);
      if watches[n].state == Attention && watches[p].state == Attention {
        var j: nat :| RaisedAndHeld(watches, inputs, j, p);
        HeldStarts(watches, inputs, j, p);
        HeldLonger(watches, inputs, j, p);
        assert RaisedAndHeld(watches, inputs, j, n);
      } else if watches[n].state == Attention {
        assert RaisedAndHeld(watches, inputs, p, n);
      } else if exists j: nat :: RaisedAndHeld(watches, inputs, j, n) {
        var j: nat :| RaisedAndHeld(watches, inputs, j, n);
        HeldLonger(watches, inputs, j, p);
      }
    }
  }

  lemma HeldStarts(watches: seq<Watch>, inputs: seq<Input>, j: nat, p: nat)
    requires |watches| == |inputs| + 1 && p <= |inputs| && RaisedAndHeld(watches, inputs, j, p)
    ensures j < p
  {}

  // ---------- Acknowledged reports ----------

  predicate Acks(i: Input) { SeenAttached(i) && ReportOf(i).Some? }

  /** The acknowledged stamp is the one reported at the last attached tick that carried a report. */
  lemma {:induction false} AckedIsLastSeen(watches: seq<Watch>, inputs: seq<Input>, n: nat)
    requires IsTrace(watches, inputs) && n <= |inputs|
    ensures watches[n].acked.None? ==> forall k :: 0 <= k < n ==> !Acks(inputs[k])
    ensures watches[n].acked.Some? ==>
              exists k :: 0 <= k < n && Acks(inputs[k]) && ReportOf(inputs[k]).value.stamp == watches[n].acked.value
                && forall l :: k < l < n ==> !Acks(inputs[l])
  {
    if n > 0 {
      var p := n - 1;
      AckedIsLastSeen(watches, inputs, p);
      assert watches[n] == Observe(watches[p], inputs[p]);
      if !Acks(inputs[p]) && watches[p].acked.Some? {
        var k :| 0 <= k < p && Acks(inputs[k]) && ReportOf(inputs[k]).value.stamp == watches[p].acked.value
          && forall l :: k < l < p ==> !Acks(inputs[l]);
        assert forall l :: k < l < n ==> !Acks(inputs[l]);
      }
    }
  }

  ghost predicate StampsNondecreasing(inputs: seq<Input>)
  {
    forall k, l :: 0 <= k < l < |inputs| && ReportOf(inputs[k]).Some? && ReportOf(inputs[l]).Some? ==>
      ReportOf(inputs[k]).value.stamp <= ReportOf(inputs[l]).value.stamp
  }

  /** A report the user has seen never rings again: once a tick saw the pane attached with stamp s,
      no later tick with a report stamped at most s asks for attention. */
  lemma SeenReportNeverRings(watches: seq<Watch>, inputs: seq<Input>, a: nat, b: nat)
    requires IsTrace(watches, inputs) && StampsNondecreasing(inputs)
    requires a < b < |inputs| && Acks(inputs[a])
    requires inputs[b].obs.Some? && ReportOf(inputs[b]).Some?
    requires ReportOf(inputs[b]).value.stamp <= ReportOf(inputs[a]).value.stamp
    ensures Next(watches[b], inputs[b]) != Attention
    ensures inputs[b].writeOk ==> watches[b + 1].state != Attention
  {
    AckedIsLastSeen(watches, inputs, b);
    assert Acks(inputs[a]);
    var k :| 0 <= k < b && Acks(inputs[k]) && ReportOf(inputs[k]).value.stamp == watches[b].acked.value
      && forall l :: k < l < b ==> !Acks(inputs[l]);
    assert a <= k;
    assert watches[b + 1] == Observe(watches[b], inputs[b]);
  }

  /** A report rings exactly when the agent is alive, the report asks for attention, nobody is
      attached, and it is newer than the last report seen from an attached terminal. */
  lemma RingsIff(m: Watch, i: Input)
    requires i.obs.Some? && ReportOf(i).Some?
    ensures Next(m, i) == Attention <==>
            && i.obs.value.claudeLike && ReportOf(i).value.bucket == Attention && !i.obs.value.attached
            && (m.acked.Some? ==> ReportOf(i).value.stamp > m.acked.value)
  {}

  /** With stamps going backwards a seen report can ring again. */
  lemma BackwardStampsReRing()
    ensures exists watches: seq<Watch>, inputs: seq<Input> ::
      && IsTrace(watches, inputs) && |inputs| == 3
      && Acks(inputs[0]) && inputs[2].obs.Some? && ReportOf(inputs[2]) == ReportOf(inputs[0])
      && watches[3].state == Attention
  {
    var attached, detached := Observation(true, 0, true), Observation(true, 0, false);
    var seen := Input(Some(attached), true, 100, true, Idle, Some(Report(Attention, 5)), true);
    var older := seen.(stored := Some(Report(Attention, 3)));
    var again := seen.(obs := Some(detached));
    var inputs := [seen, older, again];
    var w0 := Watch(Idle, None, None);
    var w1 := Observe(w0, seen);
    var w2 := Observe(w1, older);
    var watches := [w0, w1, w2, Observe(w2, again)];
    assert IsTrace(watches, inputs);
  }
}
