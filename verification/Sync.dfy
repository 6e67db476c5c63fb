/** The snapshot-plus-frames protocol between the daemon and one dashboard:
    every interleaving of ticks, publishing, subscribing, snapshots, delivery,
    lagging and reconnecting, from any warnings restored at startup. */
module Sync {
  import opened Basics
  import opened Frames
  import opened ServerState
  import opened Announcing
  import opened FrameFacts
  import Deriver
  import Warnings

  /** Frames a subscriber may fall behind before it is dropped. */
  const BROADCAST_CAPACITY := 256

  /** Where a client's session on the server stands. */
  datatype Phase = Detached | Subscribed | Serving

  datatype State = State(
    world: World,
    /** Warnings read from disk before the first tick. */
    restored: seq<Warning>,
    ticked: bool,
    /** Every warning the rules have fired since startup. */
    everFired: set<WarningId>,
    /** Every event a tick has told, in order. */
    news: seq<Deriver.Event>,
    /** Every frame ever produced, in order. */
    history: seq<Frame>,
    /** Frames of the last tick not broadcast yet. */
    unpublished: seq<Frame>,
    phase: Phase,
    /** Broadcast to this subscriber and not yet received from the channel. */
    queue: seq<Frame>,
    lagged: bool,
    /** The latest snapshot was sent before the first tick. */
    early: bool,
    /** Sent on the socket and not yet folded by the client. */
    wire: seq<Frame>,
    client: ClientView)

  function SnapshotOf(w: World): Frame {
    var view := Served(w);
    Snapshot(view.services, view.connections, view.warnings)
  }

  /** A daemon that has just started: nothing is known but the warnings it
      restored. The dashboard may still show anything from before. */
  ghost predicate Init(s: State) {
    && Distinct(s.restored, WarningKey)
    && s.world == World(map[], [], map[], s.restored) && !s.ticked && s.everFired == {}
    && s.news == [] && s.history == [] && s.unpublished == [] && s.phase == Detached && s.queue == [] && !s.lagged
    && s.wire == [] && Tidy(s.client)
  }

  // ------------------------------------------------------------------- steps

  /** The loop starts a tick only after it has published the one before. */
  ghost predicate ApplyTick(s: State, t: State, tick: Tick) {
    && s.unpublished == [] && TickOk(s.world, tick)
    && var frames := FramesOf(s.world, tick);
       t == s.(world := Ticked(s.world, tick), ticked := true, everFired := s.everFired + Warnings.FiredIds(tick.fired),
               news := s.news + tick.events, history := s.history + frames, unpublished := frames)
  }

  /** One frame is broadcast; a full queue loses its oldest frame. */
  predicate Publish(s: State, t: State) {
    && s.unpublished != []
    && var sent := s.(unpublished := s.unpublished[1..]);
       t == if s.phase == Detached then sent
            else if |s.queue| == BROADCAST_CAPACITY
              then sent.(queue := s.queue[1..] + [s.unpublished[0]], lagged := true)
            else sent.(queue := s.queue + [s.unpublished[0]])
  }

  /** A new socket: subscribed first, and nothing sent yet. */
  predicate Subscribe(s: State, t: State) {
    s.phase == Detached && t == s.(phase := Subscribed, queue := [], lagged := false, wire := [])
  }

  /** The snapshot on connect, or the one a client asked for. */
  predicate SendSnapshot(s: State, t: State) {
    && s.phase != Detached
    && t == s.(phase := Serving, wire := s.wire + [SnapshotOf(s.world)], early := !s.ticked)
  }

  predicate Forward(s: State, t: State) {
    && s.phase == Serving && !s.lagged && s.queue != []
    && t == s.(queue := s.queue[1..], wire := s.wire + [s.queue[0]])
  }

  /** A client that fell behind is dropped, never served a gap. */
  predicate DropLagging(s: State, t: State) {
    s.phase == Serving && s.lagged && t == s.(phase := Detached, queue := [], lagged := false)
  }

  predicate Disconnect(s: State, t: State) {
    s.phase != Detached && t == s.(phase := Detached, queue := [], lagged := false)
  }

  /** The client folds the next frame that arrived. */
  predicate Deliver(s: State, t: State) {
    s.wire != [] && t == s.(wire := s.wire[1..], client := Reduce(s.client, s.wire[0]))
  }

  ghost predicate Next(s: State, t: State) {
    || (exists tick :: ApplyTick(s, t, tick))
    || Publish(s, t) || Subscribe(s, t) || SendSnapshot(s, t) || Forward(s, t)
    || DropLagging(s, t) || Disconnect(s, t) || Deliver(s, t)
  }

  ghost predicate IsRun(states: seq<State>) {
    && states != [] && Init(states[0])
    && forall i :: 0 <= i < |states| - 1 ==> Next(states[i], states[i + 1])
  }

  // --------------------------------------------------------------- invariants

  /** What the frames so far tell of: before the first tick nothing, not even
      what was restored. */
  function Told(s: State): World {
    if s.ticked then s.world else s.world.(warnings := [])
  }

  /** The frames so far, folded from nothing, look like what they tell of. */
  ghost predicate HistoryTells(s: State) {
    forall key :: Appearance(Overlay(None, LastMention(s.history, key))) == Appearance(At(Served(Told(s)), key))
  }

  predicate IsSuffix(tail: seq<Frame>, all: seq<Frame>) {
    |tail| <= |all| && tail == all[|all| - |tail|..]
  }

  /** Frames on their way to the client, in the order it will fold them. */
  function InFlight(s: State): seq<Frame> {
    s.wire + s.queue + s.unpublished
  }

  /** What the client will show under a key once everything has arrived. */
  function Arriving(s: State, key: Key): Option<Entry> {
    Overlay(At(s.client, key), LastMention(InFlight(s), key))
  }

  /** What it is going to show: the view of the server or, if its snapshot is
      older than the first tick, what was restored with all frames on top. */
  function Target(s: State, key: Key): Option<Entry> {
    if s.early then Overlay(At(ClientView([], [], s.restored, []), key), LastMention(s.history, key))
    else At(Served(s.world), key)
  }

  ghost predicate OnTarget(s: State) {
    forall key :: Appearance(Arriving(s, key)) == Appearance(Target(s, key))
  }

  /** The frames so far mention exactly the warnings that ever fired. */
  ghost predicate TellsFired(s: State) {
    forall id :: LastMention(s.history, OfWarning(id)).Silent? <==> id !in s.everFired
  }

  /** What the server holds is sound; before the first tick it is what was
      restored. */
  ghost predicate ServerInv(s: State) {
    && WorldSound(s.world) && WorldOk(Told(s))
    && (!s.ticked ==> s.world == World(map[], [], map[], s.restored) && s.history == [])
    && s.world.active.Keys <= s.everFired
    && HistoryTells(s) && TellsFired(s)
  }

  ghost predicate Inv(s: State) {
    && ServerInv(s)
    && AllClean(s.history) && AllClean(s.wire) && AllClean(s.queue) && AllClean(s.unpublished) && Tidy(s.client)
    && IsSuffix(s.unpublished, s.history)
    && |s.queue| <= BROADCAST_CAPACITY
    && (s.phase != Detached && !s.lagged ==> IsSuffix(s.queue + s.unpublished, s.history))
    && (s.phase == Subscribed ==> s.wire == [])
    && (s.phase == Serving && !s.lagged ==> OnTarget(s) && (!s.ticked ==> s.early))
  }

  /** A frame from the past cannot hurt: folding any suffix of all frames ever
      produced onto a view that looks like the present one changes nothing. */
  lemma ReplayChangesNothing(history: seq<Frame>, tail: seq<Frame>, view: ClientView, key: Key)
    requires AllClean(history) && IsSuffix(tail, history)
    requires Appearance(Overlay(None, LastMention(history, key))) == Appearance(At(view, key))
    ensures Appearance(At(ReduceAll(view, tail), key)) == Appearance(At(view, key))
    ensures Appearance(Overlay(At(view, key), LastMention(tail, key))) == Appearance(At(view, key))
  {
    hide LastMention, At, Appearance, Reduce, Clean;
    SuffixSpeaksLast(history, tail, key);
    FoldIsLastMention(view, tail, key);
  }

  lemma SuffixSpeaksLast(history: seq<Frame>, tail: seq<Frame>, key: Key)
    requires IsSuffix(tail, history)
    ensures LastMention(tail, key).Silent? || LastMention(tail, key) == LastMention(history, key)
  {
    hide LastMention;
    var front := history[..|history| - |tail|];
    assert history == front + tail;
    LastMentionConcat(front, tail, key);
  }

  lemma SnapshotMentions(w: World, key: Key)
    ensures Mentioned(SnapshotOf(w), key) == Replaced(At(Served(w), key))
  {
  }

  lemma SnapshotClean(w: World)
    requires WorldSound(w)
    ensures Clean(SnapshotOf(w))
  {
    hide ListOf;
    ServicesKeyed(w.held);
    FindListed(ServicesOf(w.held), 0);
  }

  lemma InitInv(s: State)
    requires Init(s)
    ensures Inv(s)
  {
    FindListed(map[], 0);
    forall key ensures At(Served(Told(s)), key) == None {
      match key {
        case OfService(id) => FindListed(map[], id);
        case _ =>
      }
    }
  }

  /** Frames that carry one view to the next carry anything that looks like
      the first to something that looks like the second. */
  lemma Carried(base: Option<Entry>, before: ClientView, after: ClientView, past: seq<Frame>, frames: seq<Frame>,
          key: Key)
    requires Announces(frames, before, after)
    requires Appearance(Overlay(base, LastMention(past, key))) == Appearance(At(before, key))
    ensures Appearance(Overlay(base, LastMention(past + frames, key))) == Appearance(At(after, key))
  {
    LastMentionConcat(past, frames, key);
    assert Carries(frames, before, after, key);
    hide At, LastMention, Appearance, AllClean;
    SameLook(At(before, key), Overlay(base, LastMention(past, key)), LastMention(frames, key));
  }

  lemma HistoryGrows(s: State, t: State, frames: seq<Frame>)
    requires HistoryTells(s) && Announces(frames, Served(Told(s)), Served(Told(t)))
    requires t.history == s.history + frames
    ensures HistoryTells(t)
  {
    hide Announces, Served, At, LastMention, Appearance, Overlay, Told;
    forall key ensures Appearance(Overlay(None, LastMention(t.history, key))) == Appearance(At(Served(Told(t)), key)) {
      Carried(None, Served(Told(s)), Served(Told(t)), s.history, frames, key);
    }
  }

  lemma FlightGrows(s: State, t: State, frames: seq<Frame>)
    requires OnTarget(s) && t.early == s.early && t.restored == s.restored && t.history == s.history + frames
    requires !s.early ==> Announces(frames, Served(s.world), Served(t.world))
    requires t.client == s.client && InFlight(t) == InFlight(s) + frames
    ensures OnTarget(t)
  {
    hide Announces, Served, At, LastMention, Appearance, Overlay, InFlight;
    forall key ensures Appearance(Arriving(t, key)) == Appearance(Target(t, key)) {
      assert Appearance(Arriving(s, key)) == Appearance(Target(s, key));
      if s.early {
        OverlayConcat(At(s.client, key), InFlight(s), frames, key);
        OverlayConcat(At(ClientView([], [], s.restored, []), key), s.history, frames, key);
        SameLook(Arriving(s, key), Target(s, key), LastMention(frames, key));
      } else {
        Carried(At(s.client, key), Served(s.world), Served(t.world), InFlight(s), frames, key);
      }
    }
  }

  lemma OverlayConcat(base: Option<Entry>, past: seq<Frame>, frames: seq<Frame>, key: Key)
    ensures Overlay(base, LastMention(past + frames, key))
         == Overlay(Overlay(base, LastMention(past, key)), LastMention(frames, key))
  {
    hide LastMention;
    LastMentionConcat(past, frames, key);
  }

  /** Nothing a tick does depends on the warnings it restored. */
  lemma TickOfTold(s: State, t: State, tick: Tick)
    requires ServerInv(s) && ApplyTick(s, t, tick)
    ensures WorldOk(t.world) && Told(t) == t.world
    ensures AllClean(FramesOf(s.world, tick))
    ensures Announces(FramesOf(s.world, tick), Served(Told(s)), Served(t.world))
  {
    TickIgnoresWarnings(s.world, tick);
    hide WorldSound, WorldOk, HistoryTells, TellsFired, Carries, TickOk, Ticked, FramesOf, Served, Clean;
    TickKeepsWorld(s.world, tick);
    TickIsAnnounced(Told(s), tick);
  }

  lemma FiredGrows(s: State, t: State, tick: Tick)
    requires ServerInv(s) && ApplyTick(s, t, tick)
    ensures TellsFired(t) && t.world.active.Keys <= t.everFired
  {
    hide WorldSound, WorldOk, TickOk, HistoryTells, LastMention, FramesOf;
    forall id ensures LastMention(t.history, OfWarning(id)).Silent? <==> id !in t.everFired {
      LastMentionConcat(s.history, FramesOf(s.world, tick), OfWarning(id));
      WarningMention(s.world, tick, id);
    }
    WarningMention(s.world, tick, 0);
  }

  lemma TickServer(s: State, t: State, tick: Tick)
    requires ServerInv(s) && ApplyTick(s, t, tick)
    ensures ServerInv(t)
  {
    TickOfTold(s, t, tick);
    FiredGrows(s, t, tick);
    hide TickOk, FramesOf, Ticked, Served, HistoryTells, TellsFired, Announces;
    HistoryGrows(s, t, FramesOf(s.world, tick));
  }

  /** The frames of a tick bring what is on its way up to date. */
  lemma TickArrives(s: State, t: State, tick: Tick)
    requires Inv(s) && ApplyTick(s, t, tick) && s.phase == Serving && !s.lagged
    ensures OnTarget(t)
  {
    var frames := FramesOf(s.world, tick);
    TickOfTold(s, t, tick);
    hide ServerInv, TickOk, FramesOf, Ticked, OnTarget, AllClean, Tidy, Served, IsSuffix, Announces, InFlight, Told;
    FlightAppends(s, t, frames);
    ToldOnceTicked(s);
    FlightGrows(s, t, frames);
  }

  /** What the frames on both sides of the channel are, apart from what they
      make the client show. */
  lemma TickFramesInv(s: State, t: State, frames: seq<Frame>)
    requires s.unpublished == [] && AllClean(s.history) && AllClean(frames)
    requires t.history == s.history + frames && t.unpublished == frames && t.queue == s.queue && t.wire == s.wire
    ensures AllClean(t.history) && IsSuffix(t.unpublished, t.history)
    ensures IsSuffix(s.queue + s.unpublished, s.history) ==> IsSuffix(t.queue + t.unpublished, t.history)
  {
    FlightAppends(s, t, frames);
    hide AllClean, IsSuffix;
    AppendSuffix(s.queue + s.unpublished, s.history, frames);
    WholeSuffix(s.history, frames);
    CleanConcat(s.history, frames);
  }

  lemma TickInv(s: State, t: State, tick: Tick)
    requires Inv(s) && ApplyTick(s, t, tick)
    ensures Inv(t)
  {
    hide ServerInv, TickOk, FramesOf, Ticked, OnTarget, AllClean, Tidy, Served, IsSuffix, Announces, Told, WorldOk;
    TickOfTold(s, t, tick);
    TickServer(s, t, tick);
    if s.phase == Serving && !s.lagged {
      TickArrives(s, t, tick);
    }
    TickFramesInv(s, t, FramesOf(s.world, tick));
  }

  lemma ToldOnceTicked(s: State)
    ensures s.ticked ==> Told(s) == s.world
  {
  }

  lemma FlightAppends(s: State, t: State, frames: seq<Frame>)
    requires s.unpublished == [] && t.unpublished == frames && t.wire == s.wire && t.queue == s.queue
    ensures InFlight(t) == InFlight(s) + frames
    ensures t.queue + t.unpublished == (s.queue + s.unpublished) + frames
  {
  }

  lemma WholeSuffix(history: seq<Frame>, frames: seq<Frame>)
    ensures IsSuffix(frames, history + frames)
  {
  }

  lemma SameLook(a: Option<Entry>, b: Option<Entry>, mention: Mention)
    ensures Appearance(a) == Appearance(b) ==> Appearance(Overlay(a, mention)) == Appearance(Overlay(b, mention))
  {
  }

  lemma AppendSuffix(tail: seq<Frame>, history: seq<Frame>, frames: seq<Frame>)
    ensures IsSuffix(tail, history) ==> IsSuffix(tail + frames, history + frames)
  {
  }

  lemma PublishInv(s: State, t: State)
    requires Inv(s) && Publish(s, t)
    ensures Inv(t)
  {
    hide ServerInv, Target, At, LastMention, Appearance, Overlay, Clean, Distinct, Tidy, IsSuffix, InFlight;
    SameServer(s, t);
    SameTarget(s, t);
    CleanParts(s.unpublished);
    CleanParts(s.queue);
    SuffixOfSuffix(s.unpublished, s.history);
    if s.phase != Detached {
      if |s.queue| < BROADCAST_CAPACITY {
        CleanConcat(s.queue, [s.unpublished[0]]);
        Moved(s.queue, s.unpublished);
        assert t.queue + t.unpublished == s.queue + s.unpublished;
        SameFlight(s, t);
      } else {
        CleanConcat(s.queue[1..], [s.unpublished[0]]);
      }
    }
  }

  lemma SameFlight(s: State, t: State)
    requires t.wire == s.wire && t.queue + t.unpublished == s.queue + s.unpublished
    ensures InFlight(t) == InFlight(s)
  {
    assert s.wire + s.queue + s.unpublished == s.wire + (s.queue + s.unpublished);
    assert t.wire + t.queue + t.unpublished == t.wire + (t.queue + t.unpublished);
  }

  lemma CleanParts(frames: seq<Frame>)
    requires AllClean(frames)
    ensures frames != [] ==> AllClean([frames[0]]) && AllClean(frames[1..])
  {
  }

  lemma SuffixOfSuffix(tail: seq<Frame>, all: seq<Frame>)
    requires IsSuffix(tail, all) && tail != []
    ensures IsSuffix(tail[1..], all)
  {
  }

  lemma Moved(queue: seq<Frame>, unpublished: seq<Frame>)
    requires unpublished != []
    ensures queue + [unpublished[0]] + unpublished[1..] == queue + unpublished
  {
  }

  lemma SnapshotInv(s: State, t: State)
    requires Inv(s) && SendSnapshot(s, t)
    ensures Inv(t)
  {
    SnapshotClean(s.world);
    hide WorldOk, WorldSound, Served, At, LastMention, Appearance, Clean, Distinct, SnapshotOf, Mentioned, TellsFired;
    CleanConcat(s.wire, [SnapshotOf(s.world)]);
    if !t.lagged {
      forall key ensures Appearance(Arriving(t, key)) == Appearance(Target(t, key)) {
        SnapshotArrives(s, t, key);
      }
    }
  }

  /** A snapshot overrides what is on its way before it, and the frames of the
      past that come after it do no harm. */
  lemma SnapshotArrives(s: State, t: State, key: Key)
    requires Inv(s) && SendSnapshot(s, t) && !t.lagged
    ensures Appearance(Arriving(t, key)) == Appearance(Target(t, key))
  {
    hide WorldOk, WorldSound, At, LastMention, Appearance, Clean, Distinct, SnapshotOf, Mentioned, TellsFired;
    var tail := s.queue + s.unpublished;
    assert InFlight(t) == s.wire + [SnapshotOf(s.world)] + tail;
    LastMentionConcat(s.wire + [SnapshotOf(s.world)], tail, key);
    LastMentionConcat(s.wire, [SnapshotOf(s.world)], key);
    OneFrame(SnapshotOf(s.world), key);
    SnapshotMentions(s.world, key);
    if s.ticked {
      ReplayChangesNothing(s.history, tail, Served(s.world), key);
    } else {
      NothingListed();
      assert tail == [] && Served(s.world) == ClientView([], [], s.restored, []);
      SilentAtFirst(key);
    }
  }

  lemma NothingListed()
    ensures ListOf(ServicesOf(map[])) == []
  {
    assert ServicesOf(map[]) == map[];
  }

  lemma SilentAtFirst(key: Key)
    ensures LastMention([], key) == Silent
  {
  }

  lemma ForwardInv(s: State, t: State)
    requires Inv(s) && Forward(s, t)
    ensures Inv(t)
  {
    hide ServerInv, Target, At, LastMention, Appearance, Clean, Distinct, Overlay;
    assert s.queue == [s.queue[0]] + s.queue[1..];
    assert InFlight(t) == InFlight(s);
    var (all, rest) := (s.queue + s.unpublished, t.queue + t.unpublished);
    assert rest == all[1..];
    SameServer(s, t);
    SameTarget(s, t);
  }

  lemma DeliverInv(s: State, t: State)
    requires Inv(s) && Deliver(s, t)
    ensures Inv(t)
  {
    hide ServerInv, Target, At, LastMention, Appearance, Clean, Distinct, Reduce, Mentioned, Tidy;
    var frame := s.wire[0];
    assert frame in s.wire && forall f :: f in t.wire ==> f in s.wire;
    ReduceKeepsTidy(s.client, frame);
    forall key ensures Arriving(t, key) == Arriving(s, key) {
      assert InFlight(s) == [frame] + InFlight(t);
      LastMentionConcat([frame], InFlight(t), key);
      OneFrame(frame, key);
      ReduceIsOverlay(s.client, frame, key);
    }
    SameServer(s, t);
    SameTarget(s, t);
  }

  lemma SameServer(s: State, t: State)
    requires ServerInv(s) && t.world == s.world && t.restored == s.restored && t.ticked == s.ticked
    requires t.everFired == s.everFired && t.history == s.history
    ensures ServerInv(t)
  {
    hide WorldOk, WorldSound, LastMention, Served, At, Appearance, Overlay;
    assert Told(t) == Told(s);
  }

  lemma SameTarget(s: State, t: State)
    requires t.world == s.world && t.restored == s.restored && t.early == s.early && t.history == s.history
    ensures forall key :: Target(t, key) == Target(s, key)
  {
  }

  lemma NextKeepsInv(s: State, t: State)
    requires Inv(s) && Next(s, t)
    ensures Inv(t)
  {
    hide Inv, ApplyTick, Publish, SendSnapshot, Forward, Deliver;
    if tick :| ApplyTick(s, t, tick) {
      TickInv(s, t, tick);
    } else if Publish(s, t) {
      PublishInv(s, t);
    } else if SendSnapshot(s, t) {
      SnapshotInv(s, t);
    } else if Forward(s, t) {
      ForwardInv(s, t);
    } else if Deliver(s, t) {
      DeliverInv(s, t);
    } else {
      SessionInv(s, t);
    }
  }

  lemma SessionInv(s: State, t: State)
    requires Inv(s) && (Subscribe(s, t) || DropLagging(s, t) || Disconnect(s, t))
    ensures Inv(t)
  {
    hide ServerInv, At, LastMention, Appearance, Clean, Distinct, Tidy;
    SameServer(s, t);
    assert [] + s.unpublished == s.unpublished;
  }

  lemma {:induction false} RunKeepsInv(states: seq<State>)
    requires IsRun(states)
    ensures Inv(states[|states| - 1])
  {
    hide Inv, Next, Init;
    var n := |states| - 1;
    if n == 0 {
      InitInv(states[0]);
    } else {
      RunKeepsInv(states[..n]);
      NextKeepsInv(states[n - 1], states[n]);
    }
  }

  /** The client shows under a key what the server does. */
  ghost predicate AgreeOn(client: ClientView, server: ClientView, key: Key) {
    Appearance(At(client, key)) == Appearance(At(server, key))
  }

  /** The client and the server show the same services, edges and warnings. */
  ghost predicate Agree(client: ClientView, server: ClientView) {
    forall key :: AgreeOn(client, server, key)
  }

  /** A restored warning that no tick has ever spoken of, in a snapshot sent
      before the first tick dropped it. */
  ghost predicate Lingers(s: State, key: Key) {
    s.ticked && s.early && key.OfWarning? && key.warning in Warnings.FiredIds(s.restored) && key.warning !in s.everFired
  }

  /** The client was served before the first tick, and some warning restored
      then has not fired since. */
  ghost predicate Misled(s: State) {
    s.ticked && s.early && exists x :: x in s.restored && x.id !in s.everFired
  }

  lemma MisledIsLingering(s: State)
    ensures Misled(s) <==> exists key :: Lingers(s, key)
  {
    if x :| x in s.restored && x.id !in s.everFired {
      assert x.id in Warnings.FiredIds(s.restored);
      assert Lingers(s, OfWarning(x.id)) || !s.ticked || !s.early;
    }
  }

  lemma TargetIsServed(s: State, key: Key)
    requires ServerInv(s) && (!s.ticked ==> s.early)
    ensures Appearance(Target(s, key)) == Appearance(At(Served(s.world), key)) <==> !Lingers(s, key)
  {
    hide WorldOk, WorldSound, LastMention, ListOf;
    if s.early && s.ticked {
      assert Appearance(Overlay(None, LastMention(s.history, key))) == Appearance(At(Served(s.world), key));
      if key.OfWarning? {
        FindsFired(s.restored, key.warning);
      }
    }
    NothingListed();
    SilentAtFirst(key);
  }

  /** In every interleaving, from any warnings restored: once everything on its
      way has arrived, a served client shows exactly the services and edges the
      server holds. It shows exactly the warnings too, unless its snapshot is
      older than the first tick and some restored warning never fired since. */
  lemma ClientsConverge(states: seq<State>)
    requires IsRun(states)
    ensures var s := states[|states| - 1];
      var view := ReduceAll(s.client, InFlight(s));
      && Tidy(s.client)
      && (s.wire == [] && s.queue == [] && s.unpublished == [] ==> view == s.client)
      && (s.phase == Serving && !s.lagged ==>
        && (forall key: Key :: !key.OfWarning? ==> AgreeOn(view, Served(s.world), key))
        && (Agree(view, Served(s.world)) <==> !Misled(s)))
  {
    RunKeepsInv(states);
    var s := states[|states| - 1];
    var view := ReduceAll(s.client, InFlight(s));
    hide ServerInv, Served, At, Appearance, Clean, Distinct, IsRun, Tidy, Misled, Target, LastMention, Overlay;
    CleanConcat(s.wire, s.queue);
    CleanConcat(s.wire + s.queue, s.unpublished);
    if s.phase == Serving && !s.lagged {
      forall key ensures AgreeOn(view, Served(s.world), key) <==> !Lingers(s, key) {
        FoldIsLastMention(s.client, InFlight(s), key);
        TargetIsServed(s, key);
      }
      MisledIsLingering(s);
    }
  }

  // ------------------------------------------------------------------- events

  /** A client that shows no more events than it keeps never does. */
  lemma {:induction false} BufferIsBounded(states: seq<State>)
    requires IsRun(states) && |states[0].client.events| <= 500
    ensures |states[|states| - 1].client.events| <= 500
  {
    hide Init, ApplyTick, Publish, Subscribe, SendSnapshot, Forward, DropLagging, Disconnect;
    var n := |states| - 1;
    if n > 0 {
      BufferIsBounded(states[..n]);
      ClientStep(states[n - 1], states[n]);
    }
  }

  /** Only what is delivered changes what the client shows. */
  lemma ClientStep(s: State, t: State)
    requires Next(s, t)
    ensures t.client == s.client || Deliver(s, t)
    ensures |s.client.events| <= 500 ==> |t.client.events| <= 500
  {
    hide TickOk, Ticked, FramesOf, ReduceServices, ReduceConnections, ReduceWarnings;
  }

  /** The client subscribed in step `k`, has been attached ever since and has
      not fallen behind. */
  ghost predicate ServedSince(states: seq<State>, k: nat) {
    && k + 1 < |states| && Subscribe(states[k], states[k + 1])
    && forall j :: k < j < |states| ==> states[j].phase != Detached && !states[j].lagged
  }

  /** The events a subscriber is to hear: those in frames not broadcast yet when
      it subscribed, and those told since. */
  function Heard(states: seq<State>, k: nat): seq<Deriver.Event>
    requires k < |states| && |states[k].news| <= |states[|states| - 1].news|
  {
    EventsIn(states[k].unpublished) + states[|states| - 1].news[|states[k].news|..]
  }

  /** What the frames on their way will make of the events shown. */
  ghost predicate OnItsWay(s: State, told: seq<Deriver.Event>, shown: seq<Deriver.Event>) {
    NewestFirst(ReduceAll(s.client, InFlight(s)).events, told, shown)
  }

  /** Nothing but a tick adds to the events on their way to a client that is
      served, and nothing loses any. */
  lemma AttachedStep(s: State, t: State, told: seq<Deriver.Event>, shown: seq<Deriver.Event>)
    requires Next(s, t) && s.phase != Detached && t.phase != Detached && !t.lagged
    requires OnItsWay(s, told, shown)
    ensures |s.news| <= |t.news| && s.news == t.news[..|s.news|]
    ensures OnItsWay(t, told + t.news[|s.news|..], shown)
  {
    hide ApplyTick, Publish, SendSnapshot, Forward, Deliver, InFlight, NewestFirst, ReduceAll, EventsIn;
    if tick :| ApplyTick(s, t, tick) {
      TickOnItsWay(s, t, tick, told, shown);
    } else {
      assert t.news == s.news by { SameNews(s, t); }
      assert told + [] == told && t.news[|s.news|..] == [];
      if SendSnapshot(s, t) {
        SnapshotOnItsWay(s, t, told, shown);
      } else if Deliver(s, t) {
        DeliverOnItsWay(s, t);
      } else {
        MovedOnItsWay(s, t);
      }
    }
  }

  lemma SameNews(s: State, t: State)
    requires Publish(s, t) || Subscribe(s, t) || SendSnapshot(s, t) || Forward(s, t) || DropLagging(s, t)
        || Disconnect(s, t) || Deliver(s, t)
    ensures t.news == s.news
  {
  }

  lemma TickOnItsWay(s: State, t: State, tick: Tick, told: seq<Deriver.Event>, shown: seq<Deriver.Event>)
    requires ApplyTick(s, t, tick) && OnItsWay(s, told, shown)
    ensures t.news == s.news + tick.events && OnItsWay(t, told + tick.events, shown)
  {
    hide TickOk, Ticked, FramesOf, ReduceAll, NewestFirst, EventsIn, InFlight;
    var frames := FramesOf(s.world, tick);
    FlightAppends(s, t, frames);
    ReduceConcat(s.client, InFlight(s), frames);
    TickEvents(s.world, tick);
    MoreShown(ReduceAll(s.client, InFlight(s)), frames, told, shown);
  }

  lemma {:induction false} MoreShown(view: ClientView, frames: seq<Frame>, told: seq<Deriver.Event>,
          shown: seq<Deriver.Event>)
    requires NewestFirst(view.events, told, shown)
    ensures NewestFirst(ReduceAll(view, frames).events, told + EventsIn(frames), shown)
  {
    hide Reduce, NewestFirst;
    if frames == [] {
      assert told + [] == told;
    } else {
      var n := |frames| - 1;
      MoreShown(view, frames[..n], told, shown);
      ReduceShows(ReduceAll(view, frames[..n]), frames[n], told + EventsIn(frames[..n]), shown);
      EventsOfOne(frames[n]);
      assert told + EventsIn(frames[..n]) + EventsIn([frames[n]]) == told + EventsIn(frames);
    }
  }

  /** The events of a folded list depend on the events it starts from alone. */
  lemma {:induction false} EventsOnly(v: ClientView, w: ClientView, frames: seq<Frame>)
    requires v.events == w.events
    ensures ReduceAll(v, frames).events == ReduceAll(w, frames).events
  {
    if frames != [] {
      hide ReduceServices, ReduceConnections, ReduceWarnings, Reversed;
      EventsOnly(v, w, frames[..|frames| - 1]);
    }
  }

  lemma SnapshotOnItsWay(s: State, t: State, told: seq<Deriver.Event>, shown: seq<Deriver.Event>)
    requires SendSnapshot(s, t)
    ensures ReduceAll(t.client, InFlight(t)).events == ReduceAll(s.client, InFlight(s)).events
  {
    hide ReduceAll, SnapshotOf;
    var (snapshot, tail) := (SnapshotOf(s.world), s.queue + s.unpublished);
    assert InFlight(s) == s.wire + tail && InFlight(t) == s.wire + [snapshot] + tail;
    ReduceConcat(s.client, s.wire, tail);
    ReduceConcat(s.client, s.wire + [snapshot], tail);
    ReduceConcat(s.client, s.wire, [snapshot]);
    OneReduced(ReduceAll(s.client, s.wire), snapshot);
    SnapshotKeepsEvents(ReduceAll(s.client, s.wire), s.world);
    EventsOnly(ReduceAll(s.client, s.wire), ReduceAll(s.client, s.wire + [snapshot]), tail);
  }

  lemma SnapshotKeepsEvents(view: ClientView, w: World)
    ensures Reduce(view, SnapshotOf(w)).events == view.events
  {
    hide Served;
  }

  lemma DeliverOnItsWay(s: State, t: State)
    requires Deliver(s, t)
    ensures ReduceAll(t.client, InFlight(t)) == ReduceAll(s.client, InFlight(s))
  {
    hide ReduceAll, Reduce;
    assert InFlight(s) == [s.wire[0]] + InFlight(t);
    ReduceConcat(s.client, [s.wire[0]], InFlight(t));
    OneReduced(s.client, s.wire[0]);
  }

  lemma MovedOnItsWay(s: State, t: State)
    requires Publish(s, t) || Forward(s, t) || Subscribe(s, t) || DropLagging(s, t) || Disconnect(s, t)
    requires s.phase != Detached && t.phase != Detached && !t.lagged
    ensures t.client == s.client && InFlight(t) == InFlight(s)
  {
    if Publish(s, t) {
      Moved(s.queue, s.unpublished);
      SameFlight(s, t);
    } else {
      assert s.queue == [s.queue[0]] + s.queue[1..];
    }
  }

  lemma SubscribedOnItsWay(s: State, t: State)
    requires Subscribe(s, t) && |s.client.events| <= 500
    ensures t.news == s.news && OnItsWay(t, EventsIn(s.unpublished), s.client.events)
  {
    hide ReduceAll, NewestFirst, EventsIn;
    assert InFlight(t) == s.unpublished;
    FoldShows(s.client, s.unpublished);
  }

  /** A client that has been served since it subscribed, without a gap, is on
      its way to show the last 500 of the events told since on top of those it
      showed before, the newest first; and shows them once nothing is left on
      its way. */
  lemma {:induction false} ClientsHearEverything(states: seq<State>, k: nat)
    requires IsRun(states) && ServedSince(states, k) && |states[0].client.events| <= 500
    ensures var s := states[|states| - 1];
      && |states[k].news| <= |s.news|
      && NewestFirst(ReduceAll(s.client, InFlight(s)).events, Heard(states, k), states[k].client.events)
      && (s.wire == [] && s.queue == [] && s.unpublished == [] ==>
          NewestFirst(s.client.events, Heard(states, k), states[k].client.events))
  {
    hide Init, Next, Subscribe, NewestFirst, ReduceAll, InFlight, EventsIn, OnItsWay;
    var n := |states| - 1;
    var (s, shown) := (states[n], states[k].client.events);
    if n == k + 1 {
      assert IsRun(states[..n]);
      BufferIsBounded(states[..n]);
      SubscribedOnItsWay(states[k], s);
      assert Heard(states, k) == EventsIn(states[k].unpublished);
    } else {
      var front := states[..n];
      ClientsHearEverything(front, k);
      OnItsWayIs(states[n - 1], Heard(front, k), shown);
      AttachedStep(states[n - 1], s, Heard(front, k), shown);
      assert Heard(front, k) + s.news[|states[n - 1].news|..] == Heard(states, k);
    }
    OnItsWayIs(s, Heard(states, k), shown);
    if s.wire == [] && s.queue == [] && s.unpublished == [] {
      NothingLeft(s);
    }
  }

  lemma OnItsWayIs(s: State, told: seq<Deriver.Event>, shown: seq<Deriver.Event>)
    ensures OnItsWay(s, told, shown) <==> NewestFirst(ReduceAll(s.client, InFlight(s)).events, told, shown)
  {
  }

  lemma NothingLeft(s: State)
    requires s.wire == [] && s.queue == [] && s.unpublished == []
    ensures ReduceAll(s.client, InFlight(s)) == s.client
  {
    assert InFlight(s) == [];
  }

  /** The promise does fail: started with a warning on disk that never fires
      again, a daemon serves it, drops it in its first tick without a word, and
      leaves a client that has received everything still showing it. */
  lemma RestoredWarningLingers(x: Warning, at: Time) returns (states: seq<State>)
    ensures IsRun(states)
    ensures var s := states[|states| - 1];
      && s.restored == [x] && s.phase == Serving && !s.lagged && s.wire == [] && s.queue == [] && s.unpublished == []
      && s.client.warnings == [x] && s.world.warnings == [] && Misled(s)
  {
    var w := World(map[], [], map[], [x]);
    VanishesSilently(x, at);
    var s0 := State(w, [x], false, {}, [], [], [], Detached, [], false, false, [], ClientView([], [], [], []));
    var s1 := s0.(phase := Subscribed);
    var s2 := s1.(phase := Serving, wire := [SnapshotOf(w)], early := true);
    var s3 := s2.(world := Ticked(w, IdleTick(at)), ticked := true);
    var s4 := s3.(wire := [], client := Reduce(s3.client, SnapshotOf(w)));
    states := [s0, s1, s2, s3, s4];
    hide WorldSound, TickOk, Ticked, FramesOf, Announces, Served, Next, Reduce, ListOf;
    assert Init(s0) by { hide Served; }
    AnySession(s0, s1);
    AnySession(s1, s2);
    AnyTick(s2, s3, IdleTick(at));
    AnySession(s3, s4);
    SnapshotWarns(s3.client, w);
  }

  lemma AnySession(s: State, t: State)
    requires Subscribe(s, t) || SendSnapshot(s, t) || Deliver(s, t)
    ensures Next(s, t)
  {
    hide ApplyTick, Publish, Forward, DropLagging, Disconnect, Subscribe, SendSnapshot, Deliver;
  }

  lemma AnyTick(s: State, t: State, tick: Tick)
    requires ApplyTick(s, t, tick)
    ensures Next(s, t)
  {
    hide ApplyTick, Publish, Forward, DropLagging, Disconnect, Subscribe, SendSnapshot, Deliver;
  }

  lemma SnapshotWarns(view: ClientView, w: World)
    ensures Reduce(view, SnapshotOf(w)).warnings == w.warnings
  {
    hide ListOf;
  }

  /** No subscriber ever waits on more than 256 frames, and none falls behind
      without having waited on so many. */
  lemma QueueIsBounded(states: seq<State>)
    requires IsRun(states)
    ensures |states[|states| - 1].queue| <= 256
    ensures forall i :: 0 <= i < |states| - 1 && !states[i].lagged && states[i + 1].lagged ==> |states[i].queue| == 256
  {
    hide Init, Next;
    RunKeepsInv(states);
    forall i | 0 <= i < |states| - 1 && !states[i].lagged && states[i + 1].lagged ensures |states[i].queue| == 256 {
      LagsWhenFull(states[i], states[i + 1]);
    }
  }

  lemma LagsWhenFull(s: State, t: State)
    requires Next(s, t) && !s.lagged && t.lagged
    ensures |s.queue| == 256
  {
    hide TickOk, Ticked, FramesOf, Reduce;
  }
}
