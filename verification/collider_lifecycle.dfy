/** The renderer's collider lifecycle: `AddColliders`, `RemoveColliders`
    and the attach, detach and position-changed callbacks that drive them.
    The physics registry is a multiset of registrations: it may hold
    colliders of other components, and it counts a collider registered twice
    twice. */
module ColliderLifecycle {
  import opened Wrappers
  import opened Geometry
  import Tiled
  import opened MapRenderer
  import opened ColliderSynthesis

  /** A collider as the registry holds it: the registry places colliders by
      their world bounds, which depend on the entity position current when
      the collider was registered. */
  datatype Registration = Registration(collider: Collider, position: Vec2)

  /** The registry and the renderer's tracked array (`_colliders`, which is
      null before the first `AddColliders` and after `RemoveColliders`). */
  datatype PhysicsState = PhysicsState(registry: multiset<Registration>, tracked: Option<seq<Registration>>)

  /** The owning entity: its identity and current position. */
  datatype Host = Host(entity: EntityId, position: Vec2)

  /** The transform part whose change is reported. */
  datatype TransformComponent = Position | Rotation | Scale

  /** The tracked colliders; none when the array is null. */
  function Tracked(s: PhysicsState): (r: seq<Registration>)
    ensures s.tracked.None? ==> r == []
    ensures s.tracked.Some? ==> r == s.tracked.value
  {
    if s.tracked.Some? then s.tracked.value else []
  }

  /** The registrations of `cs` made while the entity stands at `at`. */
  function RegisterAll(cs: seq<Collider>, at: Vec2): (r: seq<Registration>)
    ensures |r| == |cs|
    ensures forall i :: 0 <= i < |cs| ==> r[i].collider == cs[i] && r[i].position == at
  {
    seq(|cs|, i requires 0 <= i < |cs| => Registration(cs[i], at))
  }

  /** The registrations a fresh synthesis makes for the host's current
      position. */
  function FreshRegistrations(c: Config, host: Host): (r: seq<Registration>)
    requires CollideIndicesUsable(c)
    ensures |r| == |Synthesize(c, host.entity)|
    ensures forall i :: 0 <= i < |r| ==> r[i] == Registration(Synthesize(c, host.entity)[i], host.position)
  {
    RegisterAll(Synthesize(c, host.entity), host.position)
  }

  /** `AddColliders`: with creation disabled nothing changes; otherwise the
      fresh colliders are registered and REPLACE the tracked array, without
      unregistering what it held before. */
  function AddColliders(c: Config, host: Host, s: PhysicsState): (s': PhysicsState)
    requires c.shouldCreateColliders ==> CollideIndicesUsable(c)
    ensures !c.shouldCreateColliders ==> s' == s
    ensures c.shouldCreateColliders ==> Tracked(s') == FreshRegistrations(c, host) && s'.tracked.Some?
    ensures c.shouldCreateColliders ==> s'.registry == s.registry + multiset(FreshRegistrations(c, host))
  {
    if !c.shouldCreateColliders then s
    else
      var added := FreshRegistrations(c, host);
      PhysicsState(s.registry + multiset(added), Some(added))
  }

  /** `RemoveColliders`: unregisters every tracked collider once and nulls
      the tracked array; a no-op when the array is already null. */
  function RemoveColliders(s: PhysicsState): (s': PhysicsState)
    ensures s'.tracked.None?
    ensures s'.registry == s.registry - multiset(Tracked(s))
    ensures s.tracked.None? ==> s' == s
  {
    match s.tracked
    case None => s
    case Some(cs) => PhysicsState(s.registry - multiset(cs), None)
  }

  /** `OnAddedToEntity`: with creation enabled, every synthesised collider
      is registered once at the host's position and becomes tracked;
      otherwise nothing happens. */
  function OnAddedToEntity(c: Config, host: Host, s: PhysicsState): (s': PhysicsState)
    requires c.shouldCreateColliders ==> CollideIndicesUsable(c)
    ensures !c.shouldCreateColliders ==> s' == s
    ensures c.shouldCreateColliders ==>
      && s'.tracked.Some?
      && |Tracked(s')| == |Synthesize(c, host.entity)|
      && (forall i :: 0 <= i < |Tracked(s')| ==>
            Tracked(s')[i].collider == Synthesize(c, host.entity)[i] && Tracked(s')[i].position == host.position)
      && s'.registry == s.registry + multiset(Tracked(s'))
  {
    AddColliders(c, host, s)
  }

  /** `OnRemovedFromEntity`: every tracked collider is unregistered once
      and the tracked array is nulled. */
  function OnRemovedFromEntity(s: PhysicsState): (s': PhysicsState)
    ensures s'.tracked.None? && Tracked(s') == []
    ensures s'.registry == s.registry - multiset(Tracked(s))
    ensures forall g :: g in s'.registry ==> g in s.registry
  {
    RemoveColliders(s)
  }

  /** `OnEntityTransformChanged`: a position change with creation enabled
      rebuilds the colliders at the host's (new) position; every other change
      is ignored. */
  function OnEntityTransformChanged(c: Config, host: Host, comp: TransformComponent, s: PhysicsState): (s': PhysicsState)
    requires c.shouldCreateColliders && comp == Position ==> CollideIndicesUsable(c)
    ensures !(c.shouldCreateColliders && comp == Position) ==> s' == s
  {
    if c.shouldCreateColliders && comp == Position then AddColliders(c, host, RemoveColliders(s))
    else s
  }

  // ---------------------------------------------------------------------
  // The registry invariant.

  /** The registry holds exactly `others` (colliders of other components)
      plus the tracked colliders, each once. */
  predicate Synchronised(s: PhysicsState, others: multiset<Registration>)
  {
    s.registry == others + multiset(Tracked(s))
  }

  /** Removing the tracked colliders of a synchronised state leaves only the
      other components' colliders, and a second removal changes nothing. */
  lemma RemoveCollidersRestoresOthers(s: PhysicsState, others: multiset<Registration>)
    requires Synchronised(s, others)
    ensures RemoveColliders(s).registry == others
    ensures Synchronised(RemoveColliders(s), others)
    ensures RemoveColliders(RemoveColliders(s)) == RemoveColliders(s)
  {
    assert (others + multiset(Tracked(s))) - multiset(Tracked(s)) == others;
  }

  /** After a position change with creation enabled, the registry holds the
      other components' colliders plus exactly one registration per freshly
      synthesised collider, all at the new position: nothing stale, nothing
      duplicated. */
  lemma PositionChangeResynchronises(c: Config, host: Host, s: PhysicsState, others: multiset<Registration>)
    requires CollideIndicesUsable(c)
    requires c.shouldCreateColliders
    requires Synchronised(s, others)
    ensures var s' := OnEntityTransformChanged(c, host, Position, s);
      && Synchronised(s', others)
      && Tracked(s') == FreshRegistrations(c, host)
      && |s'.registry| == |others| + |Synthesize(c, host.entity)|
      && forall g :: g in s'.registry - others ==> g.position == host.position
  {
    RemoveCollidersRestoresOthers(s, others);
    var s' := OnEntityTransformChanged(c, host, Position, s);
    assert s'.registry - others == multiset(FreshRegistrations(c, host));
  }

  /** A bare `AddColliders` on a state that already tracks colliders leaves
      the old registrations in the registry although the tracked array no
      longer lists them: the registry is then out of step. */
  lemma BareAddCollidersLeaksOldColliders(c: Config, host: Host, s: PhysicsState, others: multiset<Registration>)
    requires CollideIndicesUsable(c)
    requires c.shouldCreateColliders
    requires Synchronised(s, others)
    requires |Tracked(s)| > 0
    ensures AddColliders(c, host, s).registry == others + multiset(Tracked(s)) + multiset(FreshRegistrations(c, host))
    ensures !Synchronised(AddColliders(c, host, s), others)
  {
    var s' := AddColliders(c, host, s);
    var added := multiset(FreshRegistrations(c, host));
    assert |s'.registry| == |others| + |Tracked(s)| + |added|;
  }

  /** Attaching to a clean state, detaching and attaching again: detaching
      returns the registry to what it was, and re-attaching rebuilds the very
      same state as the first attach. */
  lemma DetachThenReattachRegenerates(c: Config, host: Host, others: multiset<Registration>)
    requires c.shouldCreateColliders ==> CollideIndicesUsable(c)
    ensures var s0 := PhysicsState(others, None);
      var s1 := OnAddedToEntity(c, host, s0);
      var s2 := OnRemovedFromEntity(s1);
      && Synchronised(s1, others)
      && s2 == s0
      && OnAddedToEntity(c, host, s2) == s1
  {
    var s0 := PhysicsState(others, None);
    var s1 := OnAddedToEntity(c, host, s0);
    if c.shouldCreateColliders {
      RemoveCollidersRestoresOthers(s1, others);
    }
  }

  /** The single-rectangle map: attaching yields one box registration,
      detaching leaves the registry empty again. */
  lemma SingleRectangleAttachDetach(host: Host)
    ensures
      var collision := Tiled.Layer("collision", true, 1.0, 0.0, 0.0, 1.0, 1.0, Tiled.TileGrid([], [Rect(0, 0, 32, 32)]));
      var m := Tiled.Map(10, 10, 32, 32, Tiled.Orthogonal, [collision]);
      var r := NewRenderer(m, Some("collision"), true, false);
      && r.Success?
      && CollideIndicesValid(r.value)
      && var s1 := OnAddedToEntity(r.value, host, PhysicsState(multiset{}, None));
      && s1.registry == multiset{Registration(BoxCollider(0.0, 0.0, 32.0, 32.0, 1, host.entity), host.position)}
      && OnRemovedFromEntity(s1).registry == multiset{}
  {
    SingleRectangleYieldsOneBox(host.entity);
  }
}
