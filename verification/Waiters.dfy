/** Waiting for a snapshot: waiters that register for a notification before they look,
    and inserters that insert first and notify afterwards. */
module Waiters {
  import opened Prelude
  import opened SnapshotStore

  /** Where a waiter is in its loop. `since` is the number of notifications that had been
      sent when it registered; it is woken by any later one. */
  datatype Place =
    | Registering
    | Checking(since: nat)
    | Deciding(since: nat)
    | Sleeping(since: nat)
    | Found
    | GaveUp

  datatype Waiter = Waiter(wanted: Digest, place: Place)

  /** `pending` holds the inserters that have inserted but not yet notified. */
  datatype State = State(
    present: set<Digest>,
    sent: nat,
    pending: map<nat, Digest>,
    waiters: map<nat, Waiter>)

  datatype Step =
    | Start(w: nat, wanted: Digest)
    | Register(w: nat)
    | Check(w: nat)
    | Decide(w: nat, expired: bool)
    | Wake(w: nat)
    | TimeOut(w: nat)
    | Insert(i: nat, digest: Digest)
    | Notify(i: nat)
    | Evict(digest: Digest)

  function Move(s: State, w: nat, place: Place): (r: State)
    requires w in s.waiters
  {
    s.(waiters := s.waiters[w := s.waiters[w].(place := place)])
  }

  /** A step that is not possible leaves the state alone. */
  function Next(s: State, step: Step): (r: State) {
    match step
    case Start(w, d) =>
      if w in s.waiters then s else s.(waiters := s.waiters[w := Waiter(d, Registering)])
    case Register(w) =>
      if w in s.waiters && s.waiters[w].place.Registering? then Move(s, w, Checking(s.sent)) else s
    case Check(w) =>
      if w in s.waiters && s.waiters[w].place.Checking? then
        var x := s.waiters[w];
        Move(s, w, if x.wanted in s.present then Found else Deciding(x.place.since))
      else s
    case Decide(w, expired) =>
      if w in s.waiters && s.waiters[w].place.Deciding? then
        Move(s, w, if expired then GaveUp else Sleeping(s.waiters[w].place.since))
      else s
    case Wake(w) =>
      if w in s.waiters && s.waiters[w].place.Sleeping? && s.waiters[w].place.since < s.sent then Move(s, w, Registering) else s
    case TimeOut(w) =>
      if w in s.waiters && s.waiters[w].place.Sleeping? then Move(s, w, Registering) else s
    case Insert(i, d) =>
      if i in s.pending then s else s.(present := s.present + {d}, pending := s.pending[i := d])
    case Notify(i) =>
      if i in s.pending then s.(pending := s.pending - {i}, sent := s.sent + 1) else s
    case Evict(d) => s.(present := s.present - {d})
  }

  function Run(s: State, steps: seq<Step>): (r: State) {
    if steps == [] then s else Next(Run(s, steps[..|steps| - 1]), steps[|steps| - 1])
  }

  predicate Initial(s: State) {
    s.pending == map[] && s.waiters == map[]
  }

  // ----- no lost wake-up -----

  /** Someone who inserted `d` still has to notify. */
  ghost predicate NotifyDue(s: State, d: Digest) {
    exists i <- s.pending :: s.pending[i] == d
  }

  /** After it failed to find its snapshot, a waiter misses no insertion of it. */
  ghost predicate Attended(s: State, x: Waiter) {
    x.place.Deciding? || x.place.Sleeping? ==>
      x.wanted in s.present ==> x.place.since < s.sent || NotifyDue(s, x.wanted)
  }

  ghost predicate Inv(s: State) {
    forall w <- s.waiters :: Attended(s, s.waiters[w]) && RegisteredBefore(s.waiters[w].place, s.sent)
  }

  predicate RegisteredBefore(p: Place, sent: nat) {
    p.Checking? || p.Deciding? || p.Sleeping? ==> p.since <= sent
  }

  lemma InsertKeeps(s: State, i: nat, d: Digest)
    requires Inv(s)
    ensures Inv(Next(s, Insert(i, d)))
  {
    var r := Next(s, Insert(i, d));
    if i !in s.pending {
      assert r.pending[i] == d;
      forall c: Digest | NotifyDue(s, c) ensures NotifyDue(r, c) {
        var j :| j in s.pending && s.pending[j] == c;
        assert r.pending[j] == c;
      }
      forall w <- r.waiters ensures Attended(r, r.waiters[w]) {
        assert Attended(s, s.waiters[w]);
      }
    }
  }

  lemma NextKeeps(s: State, step: Step)
    requires Inv(s)
    ensures Inv(Next(s, step))
  {
    if step.Insert? {
      InsertKeeps(s, step.i, step.digest);
    } else {
      var r := Next(s, step);
      assert !step.Notify? ==> r.pending == s.pending && r.sent == s.sent && r.present <= s.present;
      forall w <- r.waiters ensures Attended(r, r.waiters[w]) {
        assert w in s.waiters ==> Attended(s, s.waiters[w]);
      }
    }
  }

  lemma {:induction false} RunKeeps(s: State, steps: seq<Step>)
    requires Inv(s)
    ensures Inv(Run(s, steps))
  {
    if steps != [] {
      RunKeeps(s, steps[..|steps| - 1]);
      NextKeeps(Run(s, steps[..|steps| - 1]), steps[|steps| - 1]);
    }
  }

  predicate HasFound(s: State, w: nat) {
    w in s.waiters && s.waiters[w].place == Found
  }

  /** In no run does a waiter sleep past its snapshot: when the snapshot is there, the
      waiter can be woken now or as soon as an inserter under way notifies. In both
      cases three more steps of its own bring it the snapshot. */
  lemma NoLostWakeUp(s: State, steps: seq<Step>, w: nat)
    requires Initial(s)
    requires var r := Run(s, steps);
      w in r.waiters && r.waiters[w].place.Sleeping? && r.waiters[w].wanted in r.present
    ensures var r := Run(s, steps);
      || HasFound(Run(r, [Wake(w), Register(w), Check(w)]), w)
      || exists i <- r.pending :: HasFound(Run(r, [Notify(i), Wake(w), Register(w), Check(w)]), w)
  {
    RunKeeps(s, steps);
    var r := Run(s, steps);
    assert Attended(r, r.waiters[w]);
    if r.waiters[w].place.since < r.sent {
      WakesUp(r, w);
    } else {
      var i :| i in r.pending && r.pending[i] == r.waiters[w].wanted;
      var notified := Next(r, Notify(i));
      WakesUp(notified, w);
      RunAfter(r, Notify(i), [Wake(w), Register(w), Check(w)]);
      assert [Notify(i)] + [Wake(w), Register(w), Check(w)] == [Notify(i), Wake(w), Register(w), Check(w)];
    }
  }

  lemma WakesUp(s: State, w: nat)
    requires w in s.waiters && s.waiters[w].place.Sleeping? && s.waiters[w].wanted in s.present
    requires s.waiters[w].place.since < s.sent
    ensures HasFound(Run(s, [Wake(w), Register(w), Check(w)]), w)
  {
    var steps := [Wake(w), Register(w), Check(w)];
    assert steps[..2] == [Wake(w), Register(w)] && steps[..2][..1] == [Wake(w)] && steps[..2][..1][..0] == [];
    var awake := Next(s, Wake(w));
    var registered := Next(awake, Register(w));
    assert Run(s, [Wake(w)]) == awake;
    assert Run(s, [Wake(w), Register(w)]) == registered;
    assert Run(s, steps) == Next(registered, Check(w));
  }

  lemma {:induction false} RunAfter(s: State, step: Step, steps: seq<Step>)
    ensures Run(s, [step] + steps) == Run(Next(s, step), steps)
  {
    if steps == [] {
      assert ([step] + steps)[..0] == [];
    } else {
      RunAfter(s, step, steps[..|steps| - 1]);
      assert ([step] + steps)[..|steps|] == [step] + steps[..|steps| - 1];
    }
  }

  // ----- giving up -----

  predicate Looking(s: State, w: nat) {
    w in s.waiters && s.waiters[w].place.Checking?
  }

  /** At step `k` waiter `w` looked and its snapshot was absent; it has not looked since. */
  ghost predicate SawAbsent(s: State, steps: seq<Step>, w: nat, k: nat) {
    && k < |steps| && steps[k] == Check(w)
    && w in Run(s, steps[..k]).waiters
    && Run(s, steps[..k]).waiters[w].wanted !in Run(s, steps[..k]).present
    && forall m :: k < m < |steps| ==> steps[m] != Check(w) || !LooksAt(s, steps, w, m)
  }

  /** Step `m` really is a look by `w`. */
  ghost predicate LooksAt(s: State, steps: seq<Step>, w: nat, m: nat)
    requires m < |steps|
  {
    Looking(Run(s, steps[..m]), w)
  }

  ghost predicate LookedInVain(s: State, steps: seq<Step>, w: nat) {
    exists k: nat :: SawAbsent(s, steps, w, k)
  }

  lemma SawAbsentExtends(s: State, steps: seq<Step>, last: Step, w: nat)
    requires LookedInVain(s, steps, w)
    requires last != Check(w) || !Looking(Run(s, steps), w)
    ensures LookedInVain(s, steps + [last], w)
  {
    var k: nat :| SawAbsent(s, steps, w, k);
    var more := steps + [last];
    assert more[..k] == steps[..k] && more[..|steps|] == steps;
    forall m | k < m < |more| ensures more[m] != Check(w) || !LooksAt(s, more, w, m) {
      assert m < |steps| ==> more[..m] == steps[..m];
    }
    assert SawAbsent(s, more, w, k);
  }

  /** A waiter gives up only if its last look at the store did not find the snapshot. */
  lemma {:induction false} GivesUpAfterVainLook(s: State, steps: seq<Step>, w: nat)
    requires Initial(s) && w in Run(s, steps).waiters
    requires var p := Run(s, steps).waiters[w].place; p.Deciding? || p.Sleeping? || p.GaveUp?
    ensures LookedInVain(s, steps, w)
  {
    var init, last := steps[..|steps| - 1], steps[|steps| - 1];
    var before := Run(s, init);
    assert steps == init + [last];
    if last == Check(w) && Looking(before, w) {
      assert SawAbsent(s, steps, w, |init|);
    } else {
      GivesUpAfterVainLook(s, init, w);
      SawAbsentExtends(s, init, last, w);
    }
  }
}
