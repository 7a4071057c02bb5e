/**
 The lifecycle of one confetti instance: `confetti(node, options)` builds
 the particle nodes, styles them and arms the cleanup timer; the returned
 handle's `update` and `destroy`, and the timer firing, are the events.

 The container is modelled by the ids of the particle nodes it holds; a
 node is an id, its `--bgc` colour and the style values written on it.
 The timer is created by a microtask queued at creation, so until that
 microtask runs there is no timer for `clearTimeout` to clear.
 */
module Lifecycle {
  import opened Wrappers
  import opened ConfettiOptions
  import opened Particles
  import opened Styles

  datatype Node = Node(id: nat, color: string, style: Option<ParticleStyle>)

  /**
   The cleanup timer: `Pending` while the microtask that calls `setTimeout`
   has not run, `Armed` until it is cleared or fires, `Idle` afterwards.
   */
  datatype Timer = Pending | Armed | Idle

  /** How far the timer has progressed; no event moves it backwards. */
  function TimerStage(t: Timer): nat
  {
    match t
    case Pending => 0
    case Armed => 1
    case Idle => 2
  }

  datatype Instance = Instance(
    config: Config,          // the option values the closure currently holds
    nodes: seq<Node>,        // the particle node handles, in particle order
    children: seq<nat>,      // ids of the nodes currently in the container
    timer: Timer,            // the cleanup timer
    stageHeightVar: real,    // the container's `--sh`
    nextId: nat)             // the next fresh node id

  function Ids(nodes: seq<Node>): (ids: seq<nat>)
    ensures |ids| == |nodes|
    ensures forall i :: 0 <= i < |nodes| ==> ids[i] == nodes[i].id
  {
    seq(|nodes|, i requires 0 <= i < |nodes| => nodes[i].id)
  }

  /** Node `i` carries colour `colors[i mod |colors|]`. */
  ghost predicate PaletteColored(nodes: seq<Node>, colors: seq<string>)
  {
    |colors| > 0 &&
    forall i :: 0 <= i < |nodes| ==> nodes[i].color == colors[i % |colors|]
  }

  /** What holds of every instance from its creation onwards. */
  ghost predicate Inv(s: Instance)
  {
    && |s.nodes| == s.config.particleCount
    && PaletteColored(s.nodes, s.config.colors)
    && (forall i :: 0 <= i < |s.nodes| ==> s.nodes[i].id < s.nextId)
    && (forall i, j :: 0 <= i < j < |s.nodes| ==> s.nodes[i].id != s.nodes[j].id)
    && (s.children == [] || s.children == Ids(s.nodes))
  }

  /** `create_particle_nodes`: one fresh, unstyled node per particle. */
  function ParticleNodes(ps: seq<Particle>, start: nat): (ns: seq<Node>)
    ensures |ns| == |ps|
    ensures forall i :: 0 <= i < |ps| ==>
      ns[i].color == ps[i].color && ns[i].style.None?
    ensures forall i :: 0 <= i < |ps| ==> start <= ns[i].id < start + |ps|
    ensures forall i, j :: 0 <= i < j < |ps| ==> ns[i].id != ns[j].id
  {
    seq(|ps|, i requires 0 <= i < |ps| => Node(start + i, ps[i].color, None))
  }

  /** `confetti(node, options)` with the random draws of every particle. */
  function Explode(o: Options, draws: seq<Draws>): (s: Instance)
    requires PaletteOk(o)
    requires |draws| == Resolve(o).particleCount
    requires forall i :: 0 <= i < |draws| ==> ValidDraws(draws[i])
    ensures s.config == Resolve(o)
    ensures s.stageHeightVar == Resolve(o).stageHeight
    ensures s.timer.Pending?
    ensures s.children == Ids(s.nodes)
    ensures |s.nodes| == |draws|
    ensures var ps := CreateParticles(s.config.particleCount, s.config.colors);
      forall i :: 0 <= i < |s.nodes| ==>
        s.nodes[i].style == Some(ConfettiStyles(ps[i].degree, s.config, draws[i]))
    ensures Inv(s)
  {
    var cfg := Resolve(o);
    var ps := CreateParticles(cfg.particleCount, cfg.colors);
    var styled := StyleNodes(ParticleNodes(ps, 0), ps, cfg, draws);
    FreshNodesInv(cfg, styled, ps);
    Instance(cfg, styled, Ids(styled), Pending, cfg.stageHeight, |ps|)
  }

  /** Fresh nodes numbered below their count, coloured like the particles, satisfy `Inv`. */
  lemma FreshNodesInv(cfg: Config, ns: seq<Node>, ps: seq<Particle>)
    requires |ns| == |ps| == cfg.particleCount && |cfg.colors| > 0
    requires forall i :: 0 <= i < |ps| ==> ps[i].color == cfg.colors[i % |cfg.colors|]
    requires forall i :: 0 <= i < |ns| ==> ns[i].color == ps[i].color && ns[i].id < |ps|
    requires forall i, j :: 0 <= i < j < |ns| ==> ns[i].id != ns[j].id
    ensures forall h: real, t: Timer :: Inv(Instance(cfg, ns, Ids(ns), t, h, |ps|))
  {
  }

  /** The `confetti_styles` loop: node `i` gets the styles of particle `i`'s degree. */
  function StyleNodes(ns: seq<Node>, ps: seq<Particle>, cfg: Config, draws: seq<Draws>): (r: seq<Node>)
    requires |ns| == |ps| == |draws|
    requires forall i :: 0 <= i < |ps| ==> 0.0 <= ps[i].degree < 360.0
    requires forall i :: 0 <= i < |draws| ==> ValidDraws(draws[i])
    ensures |r| == |ns|
    ensures forall i :: 0 <= i < |r| ==> r[i].id == ns[i].id && r[i].color == ns[i].color
    ensures forall i :: 0 <= i < |r| ==>
      r[i].style == Some(ConfettiStyles(ps[i].degree, cfg, draws[i]))
  {
    seq(|ns|, i requires 0 <= i < |ns| =>
      ns[i].(style := Some(ConfettiStyles(ps[i].degree, cfg, draws[i]))))
  }

  /** The recolouring loop of `update`: node `i` takes particle `i`'s colour. */
  function Recolor(nodes: seq<Node>, ps: seq<Particle>): (ns: seq<Node>)
    requires |ps| == |nodes|
    ensures Ids(ns) == Ids(nodes)
    ensures forall i :: 0 <= i < |ns| ==> ns[i].color == ps[i].color
    ensures forall i :: 0 <= i < |ns| ==> ns[i].style == nodes[i].style
  {
    var ns := seq(|nodes|, i requires 0 <= i < |nodes| => nodes[i].(color := ps[i].color));
    assert Ids(ns) == Ids(nodes);
    ns
  }

  /**
   Does `update(o)` call `clearTimeout`? Omitted counts as not `true`. The
   call clears the timer only once the microtask has created it.
   */
  predicate CancelsTimer(s: Instance, o: Options)
  {
    s.config.destroyAfterDone && o.destroyAfterDone != Some(true)
  }

  /** `update(o)` on the handle. */
  function Update(s: Instance, o: Options): (r: Instance)
    requires PaletteOk(o)
    requires |s.nodes| == s.config.particleCount
    ensures r.config == Resolve(o)
    ensures r.stageHeightVar == Resolve(o).stageHeight
    ensures r.timer.Pending? <==> s.timer.Pending?
    ensures r.timer.Armed? <==> s.timer.Armed? && !CancelsTimer(s, o)
    ensures Resolve(o).particleCount == s.config.particleCount ==>
      && Ids(r.nodes) == Ids(s.nodes)
      && r.children == s.children
      && (forall i :: 0 <= i < |r.nodes| ==> r.nodes[i].style == s.nodes[i].style)
    ensures Resolve(o).particleCount != s.config.particleCount ==>
      && |r.nodes| == Resolve(o).particleCount
      && r.children == Ids(r.nodes)
      && (forall i :: 0 <= i < |r.nodes| ==> s.nextId <= r.nodes[i].id && r.nodes[i].style.None?)
    ensures Inv(s) ==> Inv(r)
  {
    var cfg := Resolve(o);
    var ps := CreateParticles(cfg.particleCount, cfg.colors);
    var timer := if s.timer.Armed? && CancelsTimer(s, o) then Idle else s.timer;
    if cfg.particleCount == s.config.particleCount then
      var ns := if s.config.colors != cfg.colors then Recolor(s.nodes, ps) else s.nodes;
      var r := Instance(cfg, ns, s.children, timer, cfg.stageHeight, s.nextId);
      UpdateKeepsInv(s, o, r);
      r
    else
      var ns := ParticleNodes(ps, s.nextId);
      Instance(cfg, ns, Ids(ns), timer, cfg.stageHeight, s.nextId + |ps|)
  }

  lemma UpdateKeepsInv(s: Instance, o: Options, r: Instance)
    requires PaletteOk(o)
    requires |s.nodes| == s.config.particleCount
    requires Resolve(o).particleCount == s.config.particleCount
    requires r.config == Resolve(o) && r.children == s.children && r.nextId == s.nextId
    requires r.nodes ==
      if s.config.colors != Resolve(o).colors
      then Recolor(s.nodes, CreateParticles(Resolve(o).particleCount, Resolve(o).colors))
      else s.nodes
    ensures Inv(s) ==> Inv(r)
  {
    if Inv(s) {
      assert Ids(r.nodes) == Ids(s.nodes);
      forall i | 0 <= i < |r.nodes|
        ensures r.nodes[i].id == s.nodes[i].id
      {
        assert Ids(r.nodes)[i] == Ids(s.nodes)[i];
      }
    }
  }

  /**
   `destroy()`: clears the timer and nothing else; before the microtask has
   run there is no timer yet, and the call does nothing.
   */
  function Destroy(s: Instance): (r: Instance)
    ensures !r.timer.Armed?
    ensures r.timer.Pending? <==> s.timer.Pending?
    ensures r.config == s.config && r.nodes == s.nodes && r.children == s.children
    ensures r.stageHeightVar == s.stageHeightVar && r.nextId == s.nextId
  {
    if s.timer.Armed? then s.(timer := Idle) else s
  }

  /** The queued microtask: it creates the timer, once. */
  function Arm(s: Instance): (r: Instance)
    ensures s.timer.Pending? ==> r == s.(timer := Armed)
    ensures !s.timer.Pending? ==> r == s
  {
    if s.timer.Pending? then s.(timer := Armed) else s
  }

  /**
   The cleanup timer firing: it empties the container only if
   `destroyAfterDone` holds at that moment. A timer that was never created,
   or was cleared, never fires.
   */
  function Fire(s: Instance): (r: Instance)
    ensures !r.timer.Armed?
    ensures r.timer.Pending? <==> s.timer.Pending?
    ensures r.config == s.config && r.nodes == s.nodes
    ensures !s.timer.Armed? ==> r == s
    ensures s.timer.Armed? && s.config.destroyAfterDone ==> r.children == []
    ensures !s.config.destroyAfterDone ==> r.children == s.children
  {
    if s.timer.Armed? then
      s.(timer := Idle, children := if s.config.destroyAfterDone then [] else s.children)
    else s
  }

  datatype Event = UpdateEvent(options: Options) | DestroyEvent | Microtask | TimerFire

  predicate EventsOk(es: seq<Event>)
  {
    forall i :: 0 <= i < |es| ==> (es[i].UpdateEvent? ==> PaletteOk(es[i].options))
  }

  function Step(s: Instance, e: Event): (r: Instance)
    requires e.UpdateEvent? ==> PaletteOk(e.options)
    requires |s.nodes| == s.config.particleCount
    ensures |r.nodes| == r.config.particleCount
    ensures TimerStage(r.timer) >= TimerStage(s.timer)
    ensures r.timer.Armed? && !s.timer.Armed? ==> e.Microtask?
  {
    match e
    case UpdateEvent(o) => Update(s, o)
    case DestroyEvent => Destroy(s)
    case Microtask => Arm(s)
    case TimerFire => Fire(s)
  }

  function Run(s: Instance, es: seq<Event>): (r: Instance)
    requires EventsOk(es)
    requires |s.nodes| == s.config.particleCount
    ensures |r.nodes| == r.config.particleCount
    decreases |es|
  {
    if |es| == 0 then s else Run(Step(s, es[0]), es[1..])
  }

  /** Every event keeps the instance invariant. */
  lemma StepKeepsInv(s: Instance, e: Event)
    requires e.UpdateEvent? ==> PaletteOk(e.options)
    requires Inv(s)
    ensures Inv(Step(s, e))
  {
  }

  /** The invariant holds after any sequence of events. */
  lemma {:induction false} RunKeepsInv(s: Instance, es: seq<Event>)
    requires EventsOk(es)
    requires Inv(s)
    ensures Inv(Run(s, es))
    decreases |es|
  {
    if |es| > 0 {
      StepKeepsInv(s, es[0]);
      assert EventsOk(es[1..]);
      RunKeepsInv(Step(s, es[0]), es[1..]);
    }
  }

  /**
   The timer only moves forwards: once cleared or fired it stays idle, and
   only the microtask can arm it.
   */
  lemma {:induction false} RunNeverRearms(s: Instance, es: seq<Event>)
    requires EventsOk(es)
    requires |s.nodes| == s.config.particleCount
    ensures TimerStage(Run(s, es).timer) >= TimerStage(s.timer)
    ensures s.timer.Idle? ==> Run(s, es).timer.Idle?
    ensures Run(s, es).timer.Armed? && !s.timer.Armed? ==> Microtask in es
    decreases |es|
  {
    if |es| > 0 {
      assert EventsOk(es[1..]);
      RunNeverRearms(Step(s, es[0]), es[1..]);
    }
  }

  /** Every state reachable from `confetti(...)` colours node i by the palette. */
  lemma ReachableColored(o: Options, draws: seq<Draws>, es: seq<Event>)
    requires PaletteOk(o)
    requires |draws| == Resolve(o).particleCount
    requires forall i :: 0 <= i < |draws| ==> ValidDraws(draws[i])
    requires EventsOk(es)
    ensures var r := Run(Explode(o, draws), es);
      && |r.nodes| == r.config.particleCount
      && |r.config.colors| > 0
      && forall i :: 0 <= i < |r.nodes| ==>
           r.nodes[i].color == r.config.colors[i % |r.config.colors|]
  {
    RunKeepsInv(Explode(o, draws), es);
  }

  /**
   Opting out of `destroyAfterDone` by an update keeps the nodes: an armed
   timer is cleared, and a timer armed later reads `false` when it fires.
   */
  lemma OptOutKeepsNodes(s: Instance, o: Options)
    requires PaletteOk(o)
    requires |s.nodes| == s.config.particleCount
    requires s.config.destroyAfterDone && o.destroyAfterDone == Some(false)
    ensures s.timer.Armed? ==> Update(s, o).timer.Idle?
    ensures s.timer.Pending? ==> Update(s, o).timer.Pending?
    ensures Fire(Update(s, o)).children == Update(s, o).children
    ensures Fire(Arm(Update(s, o))).children == Update(s, o).children
  {
  }

  /**
   Opting in while the timer exists or is still to be created makes the
   firing empty the container; a cleared timer is not brought back.
   */
  lemma OptInUsesCurrentValue(s: Instance, o: Options)
    requires PaletteOk(o)
    requires |s.nodes| == s.config.particleCount
    requires !s.config.destroyAfterDone && o.destroyAfterDone == Some(true)
    ensures Update(s, o).timer == s.timer
    ensures !s.timer.Idle? ==> Fire(Arm(Update(s, o))).children == []
  {
  }

  /**
   An update before the microtask has run clears nothing: whatever
   `destroyAfterDone` it leaves in place decides the later firing.
   */
  lemma UpdateBeforeArm(s: Instance, o: Options)
    requires PaletteOk(o)
    requires |s.nodes| == s.config.particleCount
    requires s.timer.Pending?
    ensures Update(s, o).timer.Pending?
    ensures Resolve(o).destroyAfterDone ==> Fire(Arm(Update(s, o))).children == []
    ensures !Resolve(o).destroyAfterDone ==>
      Fire(Arm(Update(s, o))).children == Update(s, o).children
  {
  }

  /** `destroy()` before the microtask has run does not stop the cleanup. */
  lemma DestroyBeforeArm(s: Instance)
    requires s.timer.Pending?
    ensures Destroy(s) == s
    ensures s.config.destroyAfterDone ==> Fire(Arm(Destroy(s))).children == []
  {
  }

  /**
   `confetti(el, o)` followed at once by `update(o')`, as an adapter that
   re-applies its options does: `Explode` leaves the timer pending, and the
   container is still emptied when the timer fires if `o'` leaves
   `destroyAfterDone` on.
   */
  lemma ImmediateUpdate(s: Instance, o: Options)
    requires PaletteOk(o)
    requires |s.nodes| == s.config.particleCount
    requires s.timer.Pending?
    ensures Resolve(o).destroyAfterDone ==>
      Run(s, [UpdateEvent(o), Microtask, TimerFire]).children == []
    ensures !Resolve(o).destroyAfterDone ==>
      Run(s, [UpdateEvent(o), Microtask, TimerFire]).children == Update(s, o).children
  {
    var s1 := Update(s, o);
    var s2 := Arm(s1);
    UpdateBeforeArm(s, o);
    var es := [UpdateEvent(o), Microtask, TimerFire];
    assert es[1..] == [Microtask, TimerFire] && es[1..][1..] == [TimerFire];
    assert Run(s, es) == Run(s1, es[1..]);
    assert Run(s1, es[1..]) == Run(s2, [TimerFire]);
    assert Run(s2, [TimerFire]) == Fire(s2);
  }
}
