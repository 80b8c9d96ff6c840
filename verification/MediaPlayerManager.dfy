/** The registry of media player clients that the sinks of one bin share
    (source/MediaPlayerManager.cpp): reference counts and the single controller. */
module MediaPlayerManagers {
  import opened Common

  /** A parent bin; NULL_PARENT stands for the null pointer. */
  type Parent = int
  const NULL_PARENT: Parent := 0

  type ClientId = nat

  datatype ClientInfo<M> = ClientInfo(client: ClientId, controller: Option<M>, refCount: nat)

  /** A manager's m_client, a weak pointer, and its m_currentGstBinParent. */
  datatype Manager = Manager(client: Option<ClientId>, parent: Parent)

  datatype System<M(==)> = System(
    infos: map<Parent, ClientInfo<M>>,
    managers: map<M, Manager>,
    alive: set<ClientId>,   // client objects that exist
    nextClient: ClientId)

  /** m_client.lock() gives a client. */
  predicate Locks<M>(s: System<M>, m: M)
    requires m in s.managers
  {
    s.managers[m].client.Some? && s.managers[m].client.value in s.alive
  }

  function CreateClient<M>(s: System<M>, m: M, parent: Parent, backendCreated: bool): System<M> {
    if parent in s.infos then
      var info := s.infos[parent];
      s.(infos := s.infos[parent := info.(refCount := U32(info.refCount + 1))],
         managers := s.managers[m := Manager(Some(info.client), parent)])
    else if backendCreated then
      s.(infos := s.infos[parent := ClientInfo(s.nextClient, Some(m), 1)],
         managers := s.managers[m := Manager(Some(s.nextClient), parent)],
         alive := s.alive + {s.nextClient}, nextClient := s.nextClient + 1)
    else s
  }

  /** `held`: somebody else still holds a shared pointer to the client. */
  function ReleaseClient<M>(s: System<M>, m: M, held: bool): System<M>
    requires m in s.managers
  {
    var parent := s.managers[m].parent;
    if Locks(s, m) && parent in s.infos then
      var info := s.infos[parent].(refCount := U32(s.infos[parent].refCount - 1));
      var managers := s.managers[m := Manager(None, NULL_PARENT)];
      if info.refCount == 0 then
        s.(infos := s.infos - {parent}, managers := managers,
           alive := if held then s.alive else s.alive - {info.client})
      else
        var info' := if info.controller == Some(m) then info.(controller := None) else info;
        s.(infos := s.infos[parent := info'], managers := managers)
    else s
  }

  function AskControl<M>(s: System<M>, m: M): (System<M>, bool)
    requires m in s.managers
  {
    var parent := s.managers[m].parent;
    if Locks(s, m) && parent in s.infos then
      match s.infos[parent].controller
      case Some(c) => (s, c == m)
      case None => (s.(infos := s.infos[parent := s.infos[parent].(controller := Some(m))]), true)
    else (s, false)
  }

  /** Each action is one section under m_mediaPlayerClientsMutex, so that other managers may
      come between the release and the creation in attachMediaPlayerClient. */
  datatype Action<M> =
    | NewManager(m: M)
    | Create(m: M, parent: Parent, backendCreated: bool)
    | Release(m: M, held: bool)
    | HasControl(m: M)
    | Destroy(m: M)   // after the destructor's release

  predicate Enabled<M>(s: System<M>, a: Action<M>) {
    match a
    case NewManager(m) => m !in s.managers && |s.managers| < TWO_TO_THE_32 - 1
    case Create(m, _, _) => m in s.managers && !Locks(s, m)
    case Release(m, _) => m in s.managers
    case HasControl(m) => m in s.managers
    case Destroy(m) => m in s.managers && !Locks(s, m)
  }

  function Apply<M>(s: System<M>, a: Action<M>): System<M>
    requires Enabled(s, a)
  {
    match a
    case NewManager(m) => s.(managers := s.managers[m := Manager(None, NULL_PARENT)])
    case Create(m, parent, backendCreated) => CreateClient(s, m, parent, backendCreated)
    case Release(m, held) => ReleaseClient(s, m, held)
    case HasControl(m) => AskControl(s, m).0
    case Destroy(m) => s.(managers := s.managers - {m})
  }

  ghost predicate Execution<M>(s: System<M>, acts: seq<Action<M>>, t: System<M>)
    decreases |acts|
  {
    if acts == [] then s == t
    else Enabled(s, acts[0]) && Execution(Apply(s, acts[0]), acts[1..], t)
  }

  function Init<M>(): System<M> {
    System(map[], map[], {}, 0)
  }

  // ----- what every step keeps

  predicate AttachedTo<M>(s: System<M>, m: M, parent: Parent) {
    m in s.managers && s.managers[m].client.Some? && s.managers[m].parent == parent
  }

  function Attached<M>(s: System<M>, parent: Parent): set<M> {
    set m | m in s.managers && AttachedTo(s, m, parent)
  }

  ghost predicate EntryInv<M>(s: System<M>, parent: Parent)
    requires parent in s.infos
  {
    var info := s.infos[parent];
    && info.refCount == |Attached(s, parent)| > 0
    && info.client in s.alive
    && (info.controller.Some? ==> info.controller.value in Attached(s, parent))
  }

  ghost predicate Inv<M>(s: System<M>) {
    && |s.managers| < TWO_TO_THE_32
    && (forall p | p in s.infos :: EntryInv(s, p))
    && (forall p, q | p in s.infos && q in s.infos && p != q :: s.infos[p].client != s.infos[q].client)
    && (forall m | m in s.managers && s.managers[m].client.Some? ::
          s.managers[m].parent in s.infos
          && s.infos[s.managers[m].parent].client == s.managers[m].client.value)
    && (forall c | c in s.alive :: c < s.nextClient)
  }

  lemma AttachedBound<M>(s: System<M>, parent: Parent)
    ensures |Attached(s, parent)| <= |s.managers|
  {
    assert Attached(s, parent) <= s.managers.Keys;
    SubsetSize(Attached(s, parent), s.managers.Keys);
  }

  lemma {:induction false} SubsetSize<T>(a: set<T>, b: set<T>)
    requires a <= b
    ensures |a| <= |b|
  {
    assert b == a + (b - a);
  }

  lemma CreateInv<M>(s: System<M>, m: M, parent: Parent, ok: bool)
    requires Inv(s) && m in s.managers && !Locks(s, m)
    ensures Inv(CreateClient(s, m, parent, ok))
  {
    var t := CreateClient(s, m, parent, ok);
    if t != s {
      assert s.managers[m].client.None?;
      assert t.managers.Keys == s.managers.Keys;
      assert Attached(t, parent) == Attached(s, parent) + {m};
      AttachedBound(t, parent);
      if parent !in s.infos {
        assert Attached(t, parent) == {m};
      }
      forall p | p in t.infos ensures EntryInv(t, p) {
        if p != parent {
          assert Attached(t, p) == Attached(s, p);
          assert EntryInv(s, p);
        }
      }
    }
  }

  lemma ReleaseAttached<M>(s: System<M>, m: M, held: bool, p: Parent)
    requires Inv(s) && m in s.managers && Locks(s, m)
    ensures Attached(ReleaseClient(s, m, held), p) == Attached(s, p) - {m}
  {
  }

  /** Releasing keeps the entry of `p`, or erases it when `m` was the last one there. */
  lemma ReleaseEntry<M>(s: System<M>, m: M, held: bool, p: Parent)
    requires Inv(s) && m in s.managers && Locks(s, m) && p in s.infos
    ensures var t := ReleaseClient(s, m, held);
      (p in t.infos <==> Attached(s, p) - {m} != {}) && (p in t.infos ==> EntryInv(t, p))
  {
    ReleaseAttached(s, m, held, p);
    AttachedBound(s, p);
    assert EntryInv(s, p);
    if s.managers[m].parent == p {
      assert m in Attached(s, p);
      assert |Attached(s, p) - {m}| == |Attached(s, p)| - 1;
    } else {
      assert m !in Attached(s, p);
      assert Attached(s, p) - {m} == Attached(s, p);
      assert EntryInv(s, s.managers[m].parent);
    }
  }

  lemma ReleaseManager<M>(s: System<M>, m: M, held: bool, x: M)
    requires Inv(s) && m in s.managers && Locks(s, m)
    requires x in s.managers && x != m && s.managers[x].client.Some?
    ensures s.managers[x].parent in ReleaseClient(s, m, held).infos
  {
    var p := s.managers[x].parent;
    assert x in Attached(s, p) - {m};
    ReleaseEntry(s, m, held, p);
  }

  lemma ReleaseFrame<M>(s: System<M>, m: M, held: bool)
    requires Inv(s) && m in s.managers && Locks(s, m)
    ensures var t := ReleaseClient(s, m, held);
      && t.managers == s.managers[m := Manager(None, NULL_PARENT)] && |t.managers| == |s.managers|
      && t.infos.Keys <= s.infos.Keys && t.alive <= s.alive && t.nextClient == s.nextClient
      && forall p | p in t.infos :: t.infos[p].client == s.infos[p].client
  {
    assert s.managers[m := Manager(None, NULL_PARENT)].Keys == s.managers.Keys;
  }

  lemma ReleaseInv<M>(s: System<M>, m: M, held: bool)
    requires Inv(s) && m in s.managers
    ensures Inv(ReleaseClient(s, m, held))
  {
    var t := ReleaseClient(s, m, held);
    if Locks(s, m) {
      ReleaseFrame(s, m, held);
      forall p | p in t.infos ensures EntryInv(t, p) {
        ReleaseEntry(s, m, held, p);
      }
      forall x | x in t.managers && t.managers[x].client.Some?
        ensures t.managers[x].parent in t.infos
      {
        ReleaseManager(s, m, held, x);
      }
    }
  }

  lemma AskInv<M>(s: System<M>, m: M)
    requires Inv(s) && m in s.managers
    ensures Inv(AskControl(s, m).0)
  {
    var t := AskControl(s, m).0;
    forall p | p in t.infos ensures EntryInv(t, p) {
      assert EntryInv(s, p);
      assert Attached(t, p) == Attached(s, p);
      assert s.managers[m].parent == p && Locks(s, m) ==> m in Attached(s, p);
    }
  }

  /** A manager that has no client comes or goes. */
  lemma MembershipInv<M>(s: System<M>, t: System<M>, m: M)
    requires Inv(s) && t == s.(managers := t.managers) && |t.managers| < TWO_TO_THE_32
    requires t.managers.Keys - {m} == s.managers.Keys - {m}
    requires forall x | x in s.managers && x in t.managers && x != m :: t.managers[x] == s.managers[x]
    requires m in s.managers ==> s.managers[m].client.None?
    requires m in t.managers ==> t.managers[m].client.None?
    ensures Inv(t)
  {
    forall x | x in t.managers && t.managers[x].client.Some?
      ensures x in s.managers && t.managers[x] == s.managers[x]
    {
      assert x in t.managers.Keys - {m};
    }
    forall p | p in t.infos ensures EntryInv(t, p) {
      assert EntryInv(s, p);
      SameAttached(s, t, m, p);
    }
  }

  lemma SameAttached<M>(s: System<M>, t: System<M>, m: M, p: Parent)
    requires t.managers.Keys - {m} == s.managers.Keys - {m}
    requires forall x | x in s.managers && x in t.managers && x != m :: t.managers[x] == s.managers[x]
    requires m in s.managers ==> s.managers[m].client.None?
    requires m in t.managers ==> t.managers[m].client.None?
    ensures Attached(t, p) == Attached(s, p)
  {
    forall x | x in s.managers && AttachedTo(s, x, p) ensures AttachedTo(t, x, p) {
      assert x in s.managers.Keys - {m};
    }
    forall x | x in t.managers && AttachedTo(t, x, p) ensures AttachedTo(s, x, p) {
      assert x in t.managers.Keys - {m};
    }
  }

  lemma NewManagerInv<M>(s: System<M>, m: M)
    requires Inv(s) && Enabled(s, NewManager(m))
    ensures Inv(Apply(s, NewManager(m)))
  {
    var managers := s.managers[m := Manager(None, NULL_PARENT)];
    assert managers.Keys == s.managers.Keys + {m};
    MembershipInv(s, s.(managers := managers), m);
  }

  lemma AttachedLocks<M>(s: System<M>, m: M)
    requires Inv(s) && m in s.managers && s.managers[m].client.Some?
    ensures Locks(s, m)
  {
    assert EntryInv(s, s.managers[m].parent);
  }

  lemma DestroyInv<M>(s: System<M>, m: M)
    requires Inv(s) && Enabled(s, Destroy(m))
    ensures Inv(Apply(s, Destroy(m)))
  {
    if s.managers[m].client.Some? {
      AttachedLocks(s, m);
    } else {
      var managers := s.managers - {m};
      assert managers.Keys == s.managers.Keys - {m};
      SubsetSize(managers.Keys, s.managers.Keys);
      MembershipInv(s, s.(managers := managers), m);
    }
  }

  lemma StepInv<M>(s: System<M>, a: Action<M>)
    requires Inv(s) && Enabled(s, a)
    ensures Inv(Apply(s, a))
  {
    match a
    case Create(m, parent, ok) => CreateInv(s, m, parent, ok);
    case Release(m, held) => ReleaseInv(s, m, held);
    case HasControl(m) => AskInv(s, m);
    case NewManager(m) => NewManagerInv(s, m);
    case Destroy(m) => DestroyInv(s, m);
  }

  lemma {:induction false} ReachableInv<M>(s: System<M>, acts: seq<Action<M>>, t: System<M>)
    requires Inv(s) && Execution(s, acts, t)
    ensures Inv(t)
    decreases |acts|
  {
    if acts != [] {
      StepInv(s, acts[0]);
      ReachableInv(Apply(s, acts[0]), acts[1..], t);
    }
  }

  /** Over any run of attaching, re-attaching, failed creation, release and destruction: an
      entry exists exactly when a manager is attached to the parent, its reference count is
      their number, its controller is nobody or one of them, and no attached manager's weak
      pointer dangles. */
  lemma RegistryInvariant<M>(acts: seq<Action<M>>, s: System<M>, p: Parent)
    requires Execution(Init(), acts, s)
    ensures p in s.infos <==> Attached(s, p) != {}
    ensures p in s.infos ==>
      s.infos[p].refCount == |Attached(s, p)|
      && (s.infos[p].controller.Some? ==> s.infos[p].controller.value in Attached(s, p))
      && forall m | m in Attached(s, p) :: Locks(s, m) && s.managers[m].client.value == s.infos[p].client
  {
    ReachableInv(Init(), acts, s);
    EntryIffAttached(s, p);
    if p in s.infos {
      assert EntryInv(s, p);
    }
  }

  // ----- control

  predicate Controls<M>(s: System<M>, m: M, p: Parent) {
    p in s.infos && s.infos[p].controller == Some(m)
  }

  /** Whoever controls a parent is told so, everybody else there is told no, and asking changes
      nothing. */
  lemma ControlExclusive<M>(s: System<M>, m: M, p: Parent, x: M)
    requires Inv(s) && Controls(s, m, p) && AttachedTo(s, x, p)
    ensures AskControl(s, x) == (s, x == m)
  {
    assert EntryInv(s, p);
  }

  /** Between obtaining control and releasing it, control stays, whatever the others do. */
  lemma {:induction false} ControlStable<M>(s: System<M>, acts: seq<Action<M>>, t: System<M>, m: M, p: Parent)
    requires Inv(s) && Execution(s, acts, t) && Controls(s, m, p)
    requires forall a | a in acts :: !(a.Release? && a.m == m)
    ensures Controls(t, m, p) && AttachedTo(t, m, p)
    decreases |acts|
  {
    assert EntryInv(s, p);
    if acts != [] {
      assert acts[0] in acts;
      var d := Apply(s, acts[0]);
      StepInv(s, acts[0]);
      if acts[0].Release? && Locks(s, acts[0].m) {
        assert m in Attached(s, p) - {acts[0].m};
        ReleaseEntry(s, acts[0].m, acts[0].held, p);
      }
      assert Controls(d, m, p);
      ControlStable(d, acts[1..], t, m, p);
    }
  }

  /** Nobody attached to `p` asks for control in the run. */
  ghost predicate NobodyAsks<M>(s: System<M>, acts: seq<Action<M>>, p: Parent)
    decreases |acts|
  {
    acts == [] || !Enabled(s, acts[0])
    || (!(acts[0].HasControl? && AttachedTo(s, acts[0].m, p)) && NobodyAsks(Apply(s, acts[0]), acts[1..], p))
  }

  lemma {:induction false} StaysFree<M>(s: System<M>, acts: seq<Action<M>>, t: System<M>, x: M, p: Parent)
    requires Inv(s) && Execution(s, acts, t) && NobodyAsks(s, acts, p)
    requires p in s.infos && s.infos[p].controller.None? && AttachedTo(s, x, p)
    requires forall a | a in acts :: !(a.Release? && a.m == x)
    ensures Inv(t) && p in t.infos && t.infos[p].controller.None? && AttachedTo(t, x, p)
    decreases |acts|
  {
    if acts != [] {
      assert acts[0] in acts;
      var d := Apply(s, acts[0]);
      StepInv(s, acts[0]);
      if acts[0].Release? && Locks(s, acts[0].m) {
        assert x in Attached(s, p) - {acts[0].m};
        ReleaseEntry(s, acts[0].m, acts[0].held, p);
      }
      assert EntryInv(s, p);
      assert Locks(s, x);
      StaysFree(d, acts[1..], t, x, p);
    }
  }

  /** After the controller's release, the first of the remaining managers to ask obtains
      control, however much later. */
  lemma FirstToAskObtains<M>(s: System<M>, m: M, held: bool, acts: seq<Action<M>>, t: System<M>, x: M, p: Parent)
    requires Inv(s) && Controls(s, m, p) && AttachedTo(s, x, p) && x != m
    requires Execution(ReleaseClient(s, m, held), acts, t) && NobodyAsks(ReleaseClient(s, m, held), acts, p)
    requires forall a | a in acts :: !(a.Release? && a.m == x)
    ensures x in t.managers && AskControl(t, x).1 && Controls(AskControl(t, x).0, x, p)
  {
    assert EntryInv(s, p);
    assert m in Attached(s, p) && x in Attached(s, p) - {m};
    ReleaseInv(s, m, held);
    ReleaseEntry(s, m, held, p);
    StaysFree(ReleaseClient(s, m, held), acts, t, x, p);
    assert EntryInv(t, p);
  }

  // ----- attaching

  function AttachClient<M>(s: System<M>, m: M, parent: Parent, backendCreated: bool, held: bool): System<M>
    requires m in s.managers
  {
    if !Locks(s, m) then CreateClient(s, m, parent, backendCreated)
    else if parent != s.managers[m].parent then
      CreateClient(ReleaseClient(s, m, held), m, parent, backendCreated)
    else s
  }

  /** attachMediaPlayerClient succeeds exactly when the backend can be created or the parent has
      a client already; then the manager is attached to that parent and to no other, and
      otherwise to none. */
  lemma AttachOutcome<M>(s: System<M>, m: M, parent: Parent, backendCreated: bool, held: bool)
    requires Inv(s) && m in s.managers
    ensures var t := AttachClient(s, m, parent, backendCreated, held);
      && Inv(t) && m in t.managers
      && (Locks(t, m) <==> backendCreated || Attached(s, parent) != {})
      && (Locks(t, m) <==> AttachedTo(t, m, parent))
      && (!Locks(t, m) ==> t.managers[m].client.None?)
  {
    EntryIffAttached(s, parent);
    if !Locks(s, m) {
      NotLockedDetached(s, m);
      CreateInv(s, m, parent, backendCreated);
      CreateOutcome(s, m, parent, backendCreated);
    } else if parent != s.managers[m].parent {
      var r := ReleaseClient(s, m, held);
      ReleaseInv(s, m, held);
      ReleaseAttached(s, m, held, parent);
      EntryIffAttached(r, parent);
      assert EntryInv(s, s.managers[m].parent);
      assert m !in Attached(s, parent);
      assert Attached(r, parent) == Attached(s, parent);
      CreateInv(r, m, parent, backendCreated);
      CreateOutcome(r, m, parent, backendCreated);
    } else {
      assert m in Attached(s, parent);
    }
  }

  lemma NotLockedDetached<M>(s: System<M>, m: M)
    requires Inv(s) && m in s.managers
    ensures Locks(s, m) <==> s.managers[m].client.Some?
  {
    if s.managers[m].client.Some? {
      AttachedLocks(s, m);
    }
  }

  lemma EntryIffAttached<M>(s: System<M>, p: Parent)
    requires Inv(s)
    ensures p in s.infos <==> Attached(s, p) != {}
  {
    if p in s.infos {
      assert EntryInv(s, p);
    }
  }

  lemma CreateOutcome<M>(s: System<M>, m: M, parent: Parent, backendCreated: bool)
    requires Inv(s) && m in s.managers && s.managers[m].client.None?
    ensures var t := CreateClient(s, m, parent, backendCreated);
      if backendCreated || parent in s.infos
      then Locks(t, m) && AttachedTo(t, m, parent)
      else t == s
  {
    if parent in s.infos {
      assert EntryInv(s, parent);
    }
  }

  // ----- the objects

  /** The static map and the client objects. */
  class Registry {
    var mediaPlayerClientsInfo: map<Parent, ClientInfo<MediaPlayerManager>>
    var alive: set<ClientId>
    var nextClient: ClientId
    ghost var managers: set<MediaPlayerManager>

    ghost function View(): System<MediaPlayerManager>
      reads this, managers
    {
      System(mediaPlayerClientsInfo,
             map m | m in managers :: Manager(m.client, m.currentGstBinParent),
             alive, nextClient)
    }

    constructor ()
      ensures View() == Init()
    {
      mediaPlayerClientsInfo, alive, nextClient, managers := map[], {}, 0, {};
    }
  }

  class MediaPlayerManager {
    const registry: Registry
    var client: Option<ClientId>
    var currentGstBinParent: Parent

    constructor (registry: Registry)
      modifies registry
      ensures this.registry == registry && registry.managers == old(registry.managers) + {this}
      ensures registry.View() == old(registry.View()).(
        managers := old(registry.View()).managers[this := Manager(None, NULL_PARENT)])
    {
      this.registry := registry;
      client, currentGstBinParent := None, NULL_PARENT;
      new;
      registry.managers := registry.managers + {this};
    }

    method Lock() returns (locked: bool)
      requires this in registry.managers
      ensures locked == Locks(registry.View(), this)
    {
      locked := client.Some? && client.value in registry.alive;
    }

    method CreateMediaPlayerClient(parent: Parent, backendCreated: bool)
      requires this in registry.managers
      modifies this, registry
      ensures registry.managers == old(registry.managers)
      ensures registry.View() == CreateClient(old(registry.View()), this, parent, backendCreated)
    {
      if parent in registry.mediaPlayerClientsInfo {
        var info := registry.mediaPlayerClientsInfo[parent];
        registry.mediaPlayerClientsInfo :=
          registry.mediaPlayerClientsInfo[parent := info.(refCount := U32(info.refCount + 1))];
        client := Some(info.client);
        currentGstBinParent := parent;
      } else {
        if backendCreated {
          var id := registry.nextClient;
          registry.nextClient, registry.alive := id + 1, registry.alive + {id};
          registry.mediaPlayerClientsInfo :=
            registry.mediaPlayerClientsInfo[parent := ClientInfo(id, Some(this), 1)];
          client := Some(id);
          currentGstBinParent := parent;
        }
      }
    }

    method ReleaseMediaPlayerClient(held: bool)
      requires this in registry.managers
      modifies this, registry
      ensures registry.managers == old(registry.managers)
      ensures registry.View() == ReleaseClient(old(registry.View()), this, held)
    {
      var locked := Lock();
      if !locked || currentGstBinParent !in registry.mediaPlayerClientsInfo {
        return;
      }
      var parent := currentGstBinParent;
      var info := registry.mediaPlayerClientsInfo[parent];
      info := info.(refCount := U32(info.refCount - 1));
      if info.refCount == 0 {
        registry.mediaPlayerClientsInfo := registry.mediaPlayerClientsInfo - {parent};
        if !held {
          registry.alive := registry.alive - {info.client};
        }
      } else {
        if info.controller == Some(this) {
          info := info.(controller := None);
        }
        registry.mediaPlayerClientsInfo := registry.mediaPlayerClientsInfo[parent := info];
      }
      client := None;
      currentGstBinParent := NULL_PARENT;
    }

    method HasControlOfClient() returns (r: bool)
      requires this in registry.managers
      modifies registry
      ensures registry.managers == old(registry.managers)
      ensures (registry.View(), r) == AskControl(old(registry.View()), this)
    {
      var locked := Lock();
      if !locked || currentGstBinParent !in registry.mediaPlayerClientsInfo {
        return false;
      }
      var info := registry.mediaPlayerClientsInfo[currentGstBinParent];
      if info.controller == Some(this) {
        return true;
      }
      if info.controller.None? {
        registry.mediaPlayerClientsInfo :=
          registry.mediaPlayerClientsInfo[currentGstBinParent := info.(controller := Some(this))];
        assert registry.View().managers == old(registry.View()).managers;
        return true;
      }
      return false;
    }

    /** With nobody else in between. */
    method AttachMediaPlayerClient(parent: Parent, backendCreated: bool, held: bool) returns (ok: bool)
      requires this in registry.managers
      modifies this, registry
      ensures registry.managers == old(registry.managers)
      ensures registry.View() == AttachClient(old(registry.View()), this, parent, backendCreated, held)
      ensures ok == Locks(registry.View(), this)
    {
      var locked := Lock();
      if !locked {
        CreateMediaPlayerClient(parent, backendCreated);
      } else if parent != currentGstBinParent {
        ReleaseMediaPlayerClient(held);
        CreateMediaPlayerClient(parent, backendCreated);
      }
      ok := Lock();
    }
  }
}
