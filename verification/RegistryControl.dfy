/** Who controls a shared client, from its creation to its destruction
    (source/MediaPlayerManager.cpp). */
module RegistryControl {
  import opened Common
  import opened MediaPlayerManagers

  /** Attaching to a parent without a client makes a new client, which its creator controls. */
  lemma CreatorControls<M>(s: System<M>, m: M, parent: Parent, held: bool)
    requires Inv(s) && m in s.managers && Attached(s, parent) == {}
    ensures var t := AttachClient(s, m, parent, true, held);
      Controls(t, m, parent) && t.infos[parent].client !in s.alive
  {
    EntryIffAttached(s, parent);
    if Locks(s, m) {
      assert m !in Attached(s, parent);
      ReleaseInv(s, m, held);
      ReleaseAttached(s, m, held, parent);
      assert Attached(s, parent) - {m} == {};
      EntryIffAttached(ReleaseClient(s, m, held), parent);
      ReleaseFrame(s, m, held);
    }
  }

  /** Attaching to a parent that has a client leaves it to whom it belongs; re-attaching to one's own
      parent changes nothing at all. */
  lemma JoinKeepsController<M>(s: System<M>, m: M, parent: Parent, backendCreated: bool, held: bool)
    requires Inv(s) && m in s.managers && Attached(s, parent) != {}
    ensures var t := AttachClient(s, m, parent, backendCreated, held);
      && parent in s.infos && parent in t.infos
      && t.infos[parent].client == s.infos[parent].client
      && t.infos[parent].controller == s.infos[parent].controller
      && (AttachedTo(s, m, parent) ==> t == s)
  {
    EntryIffAttached(s, parent);
    if AttachedTo(s, m, parent) {
      AttachedLocks(s, m);
    } else if Locks(s, m) {
      assert m !in Attached(s, parent);
      ReleaseOther(s, m, held, parent);
    }
  }

  /** A release does not touch the entry of another parent. */
  lemma ReleaseOther<M>(s: System<M>, m: M, held: bool, q: Parent)
    requires Inv(s) && m in s.managers && !AttachedTo(s, m, q)
    ensures var t := ReleaseClient(s, m, held);
      && (q in t.infos <==> q in s.infos) && (q in s.infos ==> t.infos[q] == s.infos[q])
      && (Locks(s, m) ==> Attached(t, q) == Attached(s, q))
  {
    if Locks(s, m) {
      ReleaseAttached(s, m, held, q);
      assert m !in Attached(s, q);
    }
  }

  /** Nor does attaching, but for the parent the manager leaves. */
  lemma AttachOther<M>(s: System<M>, m: M, parent: Parent, backendCreated: bool, held: bool, q: Parent)
    requires Inv(s) && m in s.managers && q != parent && !AttachedTo(s, m, q)
    ensures var t := AttachClient(s, m, parent, backendCreated, held);
      (q in t.infos <==> q in s.infos) && (q in s.infos ==> t.infos[q] == s.infos[q])
  {
    ReleaseOther(s, m, held, q);
  }

  /** A released manager is attached to nothing, everybody else to what it was. Its control is free,
      anybody else's is kept. The client is destroyed with its last manager, unless somebody else
      holds it, and its entry goes. */
  lemma ReleaseOutcome<M>(s: System<M>, m: M, held: bool, p: Parent)
    requires Inv(s) && AttachedTo(s, m, p)
    ensures var t := ReleaseClient(s, m, held);
      && (forall q :: !AttachedTo(t, m, q))
      && (forall x, q | x != m :: AttachedTo(t, x, q) <==> AttachedTo(s, x, q))
      && p in s.infos
      && (if Attached(s, p) == {m} then
            p !in t.infos && t.alive == if held then s.alive else s.alive - {s.infos[p].client}
          else
            && p in t.infos && t.alive == s.alive
            && t.infos[p].controller == if Controls(s, m, p) then None else s.infos[p].controller)
  {
    AttachedLocks(s, m);
    ReleaseEntry(s, m, held, p);
    ReleaseFrame(s, m, held);
    assert EntryInv(s, p);
    assert m in Attached(s, p);
    if Attached(s, p) - {m} == {} {
      assert Attached(s, p) == {m};
    }
    LastReleased(s, m, p);
  }

  lemma LastReleased<M>(s: System<M>, m: M, p: Parent)
    requires Inv(s) && AttachedTo(s, m, p) && p in s.infos
    ensures U32(s.infos[p].refCount - 1) == 0 <==> Attached(s, p) == {m}
  {
    assert EntryInv(s, p);
    AttachedBound(s, p);
    assert m in Attached(s, p);
    assert |Attached(s, p) - {m}| == |Attached(s, p)| - 1;
    if Attached(s, p) - {m} == {} {
      assert Attached(s, p) == {m};
    }
  }

  /** Asking: an attached manager is told yes exactly if it controls afterwards, which it does if it
      did or if nobody did; only then anything changes. Anybody else is told no. */
  lemma AskExactly<M>(s: System<M>, m: M)
    requires Inv(s) && m in s.managers
    ensures var (t, yes) := AskControl(s, m);
      var p := s.managers[m].parent;
      && (yes <==> AttachedTo(s, m, p) && Controls(t, m, p))
      && (AttachedTo(s, m, p) ==>
            p in s.infos && (yes <==> s.infos[p].controller.None? || Controls(s, m, p)))
      && (t != s ==> yes && s.infos[p].controller.None?)
  {
    NotLockedDetached(s, m);
  }

  /** From its creation of the entry until its own release, and in every run between, the creator is
      told yes and everybody else of the parent no. */
  lemma CreatorKeepsControl<M>(
      before: seq<Action<M>>, s: System<M>, m: M, parent: Parent, acts: seq<Action<M>>, t: System<M>, x: M)
    requires Execution(Init(), before, s) && Enabled(s, Create(m, parent, true)) && Attached(s, parent) == {}
    requires Execution(Apply(s, Create(m, parent, true)), acts, t)
    requires forall a | a in acts :: !(a.Release? && a.m == m)
    requires AttachedTo(t, x, parent)
    ensures AskControl(t, x) == (t, x == m)
  {
    ReachableInv(Init(), before, s);
    var c := Create(m, parent, true);
    CreatorControls(s, m, parent, false);
    StepInv(s, c);
    ControlStable(Apply(s, c), acts, t, m, parent);
    ReachableInv(Apply(s, c), acts, t);
    ControlExclusive(t, m, parent, x);
  }

  // ----- the client objects

  predicate ClientsOf<M>(s: System<M>, c: ClientId) {
    exists p | p in s.infos :: s.infos[p].client == c
  }

  ghost predicate NoLeak<M>(s: System<M>) {
    forall c | c in s.alive :: ClientsOf(s, c)
  }

  lemma StepNoLeak<M>(s: System<M>, a: Action<M>)
    requires Inv(s) && NoLeak(s) && Enabled(s, a) && !(a.Release? && a.held)
    ensures NoLeak(Apply(s, a))
  {
    var t := Apply(s, a);
    forall c | c in t.alive ensures ClientsOf(t, c) {
      if c in s.alive {
        assert ClientsOf(s, c);
        var p :| p in s.infos && s.infos[p].client == c;
        assert p in t.infos && t.infos[p].client == c;
      } else {
        assert a.Create? && t.infos[a.parent].client == c;
      }
    }
  }

  lemma {:induction false} ReachableNoLeak<M>(s: System<M>, acts: seq<Action<M>>, t: System<M>)
    requires Inv(s) && NoLeak(s) && Execution(s, acts, t)
    requires forall a | a in acts :: !(a.Release? && a.held)
    ensures NoLeak(t)
    decreases |acts|
  {
    if acts != [] {
      assert acts[0] in acts;
      StepInv(s, acts[0]);
      StepNoLeak(s, acts[0]);
      ReachableNoLeak(Apply(s, acts[0]), acts[1..], t);
    }
  }

  /** In every run the clients of different parents are different objects; and if nobody else holds
      them, the client objects alive are exactly those of the parents with a manager attached. */
  lemma ClientObjects<M>(acts: seq<Action<M>>, s: System<M>)
    requires Execution(Init(), acts, s)
    ensures forall p, q | p in s.infos && q in s.infos && p != q :: s.infos[p].client != s.infos[q].client
    ensures (forall a | a in acts :: !(a.Release? && a.held)) ==>
      forall c :: c in s.alive <==> ClientsOf(s, c)
  {
    ReachableInv(Init(), acts, s);
    forall p | p in s.infos ensures s.infos[p].client in s.alive {
      assert EntryInv(s, p);
    }
    if forall a | a in acts :: !(a.Release? && a.held) {
      ReachableNoLeak(Init(), acts, s);
    }
  }
}
