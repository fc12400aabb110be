/** The stream as its fields change call by call, and a client that reads it to the end. */
module StreamNormalizer {
  import opened Wrappers
  import opened StreamModel
  import opened StreamRuns

  lemma {:induction false} PushedJoins(c: Core, x: seq<Body>, y: seq<Body>, accepts: Chunk -> bool)
    ensures Pushed(c, x + y, accepts) == if Pushed(c, x, accepts).1 then Pushed(Pushed(c, x, accepts).0, y, accepts)
    else Pushed(c, x, accepts)
    decreases |x|
  {
    if x == [] {
      assert x + y == y;
    } else if accepts(Chunk(|c.bodies|, x[0])) {
      assert (x + y)[1..] == x[1..] + y;
      PushedJoins(c.(bodies := c.bodies + [x[0]]), x[1..], y, accepts);
    }
  }

  lemma ChoiceKeepsPending(c: Core, choice: Choice, accepts: Chunk -> bool)
    ensures ParsedChoice(c, choice, accepts).0 == c.(bodies := ParsedChoice(c, choice, accepts).0.bodies)
  {
    hide Pushed, ChoiceBodies;
    PushedIs(c, ChoiceBodies(choice), accepts);
  }

  lemma GoodToolsStep(choice: int, tools: seq<Tool>)
    requires tools != []
    ensures !tools[0].bad ==>
              GoodTools(choice, tools) == [ToolDelta(choice, tools[0].text)] + GoodTools(choice, tools[1..])
    ensures tools[0].bad ==> GoodTools(choice, tools) == []
    ensures GoodTools(choice, []) == []
  {
  }

  class Stream {
    const input: seq<Event>
    /** NormalizedChunk.Validate */
    const accepts: Chunk -> bool
    var position: nat
    var queue: seq<Chunk>
    var nextSequence: nat
    var pendingFinish: Option<Finish>
    var pendingUsage: Option<(Text, bool)>
    var terminalEmitted: bool
    var sawDone: bool
    /** All that was ever queued. */
    ghost var bodies: seq<Body>

    constructor (input: seq<Event>, accepts: Chunk -> bool)
      ensures Valid() && Reading() == BEGIN && this.input == input && this.accepts == accepts
    {
      this.input, this.accepts := input, accepts;
      position, queue, nextSequence, pendingFinish, pendingUsage := 0, [], 0, None, None;
      terminalEmitted, sawDone, bodies := false, false, [];
    }

    ghost function View(): Core
      reads this
    {
      Core(bodies, pendingFinish, pendingUsage, terminalEmitted, sawDone)
    }

    /** The queue is what was not delivered yet, numbered on from there. */
    ghost predicate Queued()
      reads `queue, `nextSequence, `bodies
    {
      && |bodies| == nextSequence && |queue| <= |bodies|
      && forall i :: 0 <= i < |queue| ==> queue[i] == Chunk(|bodies| - |queue| + i, bodies[|bodies| - |queue| + i])
    }

    ghost function Delivered(): nat
      requires Queued()
      reads `queue, `nextSequence, `bodies
    {
      |bodies| - |queue|
    }

    ghost function Reading(): Reader
      requires Queued()
      reads this
    {
      Reader(position, Delivered(), View())
    }

    ghost predicate Valid()
      reads this
    {
      Queued() && position <= |input| && Reachable(Reading(), input, accepts)
    }

    method Enqueue(body: Body) returns (ok: bool)
      requires Queued()
      modifies `queue, `nextSequence, `bodies
      ensures Queued() && Delivered() == old(Delivered())
      ensures (View(), ok) == Pushed(old(View()), [body], accepts)
    {
      PushedOne(View(), body, accepts);
      var chunk := Chunk(nextSequence, body);
      ok := accepts(chunk);
      if ok {
        nextSequence := nextSequence + 1;
        queue := queue + [chunk];
        bodies := bodies + [body];
      }
    }

    method Dequeue() returns (chunk: Chunk)
      requires Queued() && queue != []
      modifies `queue
      ensures Queued() && Delivered() == old(Delivered()) + 1
              && chunk == Chunk(old(Delivered()), bodies[old(Delivered())])
    {
      chunk := queue[0];
      queue := queue[1..];
    }

    method EnqueueTerminal() returns (ok: bool)
      requires Queued() && pendingFinish.Some?
      modifies `queue, `nextSequence, `bodies, `terminalEmitted, `pendingFinish, `pendingUsage
      ensures Queued() && Delivered() == old(Delivered())
      ensures (View(), ok) == Terminated(old(View()), accepts)
    {
      var usage := if pendingUsage.Some? then Some(pendingUsage.value.0) else None;
      var status := if pendingUsage.None? then Missing else if pendingUsage.value.1 then Present else Partial;
      PushedOne(View(), EndBody(pendingFinish.value, pendingUsage), accepts);
      ok := Enqueue(MessageEnd(pendingFinish.value.choice, pendingFinish.value.reason, usage, status));
      if ok {
        terminalEmitted, pendingFinish, pendingUsage := true, None, None;
      }
    }

    /** parseStreamChoice */
    method ParseChoice(c: Choice) returns (ok: bool, finish: Option<Finish>)
      requires Queued()
      modifies `queue, `nextSequence, `bodies
      ensures Queued() && Delivered() == old(Delivered())
      ensures (View(), ok) == ParsedChoice(old(View()), c, accepts)
      ensures finish == if ok then FinishOf(c) else None
    {
      hide Pushed, Queued, Delivered, GoodTools;
      ok, finish := false, None;
      if c.broken || c.role == OtherRole { return; }
      ghost var start, s0 := if c.role == Assistant then [MessageStart(c.index)] else [], View();
      ghost var content, tools := ContentOf(c), GoodTools(c.index, c.tools);
      assert ChoiceBodies(c) == start + content + tools;
      PushedJoins(s0, start + content, tools, accepts);
      PushedJoins(s0, start, content, accepts);
      PushedNone(s0, accepts);
      if c.role == Assistant {
        var queued := Enqueue(MessageStart(c.index));
        if !queued { return; }
      }
      PushedNone(View(), accepts);
      if c.content != NO_TEXT {
        var queued := Enqueue(ContentDelta(c.index, c.content));
        if !queued { return; }
      }
      ghost var s2 := View();
      var i := 0;
      assert c.tools[0..] == c.tools;
      while i < |c.tools|
        invariant 0 <= i <= |c.tools| && Queued() && Delivered() == old(Delivered())
        invariant View() == s2.(bodies := bodies)
        invariant Pushed(View(), GoodTools(c.index, c.tools[i..]), accepts) == Pushed(s2, tools, accepts)
        invariant forall j :: 0 <= j < i ==> !c.tools[j].bad
      {
        GoodToolsStep(c.index, c.tools[i..]);
        assert c.tools[i..][1..] == c.tools[i + 1..];
        PushedNone(View(), accepts);
        if c.tools[i].bad { return; }
        PushedJoins(View(), [ToolDelta(c.index, c.tools[i].text)], GoodTools(c.index, c.tools[i + 1..]), accepts);
        var queued := Enqueue(ToolDelta(c.index, c.tools[i].text));
        if !queued { return; }
        i := i + 1;
      }
      GoodToolsStep(c.index, [Tool(NO_TEXT, true)]);
      assert c.tools[i..] == [];
      PushedNone(View(), accepts);
      ok := true;
      if c.finish.Some? {
        finish := Some(Finish(c.index, c.finish.value));
      }
    }

    /** parseDataEvent */
    method ParseData(e: Envelope) returns (ok: bool)
      requires Queued()
      modifies `queue, `nextSequence, `bodies, `terminalEmitted, `pendingFinish, `pendingUsage
      ensures Queued() && Delivered() == old(Delivered())
      ensures (View(), ok) == ParsedData(old(View()), e, accepts)
    {
      hide Pushed, Queued, Delivered, ParsedChoice, Concluded;
      ok := false;
      if e.broken || |e.choices| > 1 { return; }
      ghost var before := View();
      if |e.choices| == 1 {
        ChoiceKeepsPending(before, e.choices[0], accepts);
        var parsed, finish := ParseChoice(e.choices[0]);
        if !parsed { return; }
        if finish.Some? {
          if pendingFinish.Some? { return; }
          pendingFinish := finish;
        }
      }
      assert (View(), true) == ParsedChoices(before, e, accepts);
      match e.usage {
        case NoUsage =>
        case UsageOf(usage, complete, bad) =>
          if bad || pendingUsage.Some? { return; }
          pendingUsage := Some((usage, complete));
      }
      ok := Conclude(e);
    }

    /** The end of parseDataEvent: unknown fields, and the terminal chunk when it is due. */
    method Conclude(e: Envelope) returns (ok: bool)
      requires Queued()
      modifies `queue, `nextSequence, `bodies, `terminalEmitted, `pendingFinish, `pendingUsage
      ensures Queued() && Delivered() == old(Delivered())
      ensures (View(), ok) == Concluded(old(View()), e, accepts)
    {
      hide Pushed, Queued, Delivered, Terminated;
      PushedIs(View(), ExtensionOf(e), accepts);
      PushedNone(View(), accepts);
      if e.unknownFields {
        var queued := Enqueue(Extension);
        if !queued { return false; }
      }
      if pendingFinish.Some? && pendingUsage.Some? {
        ok := EnqueueTerminal();
        return;
      }
      ok := true;
    }

    /** Take one event off the input. */
    method Take() returns (ok: bool)
      requires Valid() && !sawDone && position < |input|
      modifies this
      ensures Queued() && Delivered() == old(Delivered()) && position == old(position) + 1
      ensures (View(), ok) == Taken(old(View()), input[old(position)], accepts)
      ensures Valid()
    {
      hide Pushed, Delivered, Reachable, ParsedData, Terminated;
      ReachableStep(Reading(), input, accepts);
      var e := input[position];
      position := position + 1;
      match e
      case Broken(_) => ok := false;
      case EmptyData => ok := false;
      case Heartbeat => ok := Enqueue(HeartbeatBody);
      case Done =>
        sawDone := true;
        if terminalEmitted { return true; }
        if pendingFinish.None? { return false; }
        ok := EnqueueTerminal();
      case Data(envelope) =>
        if terminalEmitted { return false; }
        ok := ParseData(envelope);
    }

    /** Next: the next chunk, the end, or an error, whatever came before. */
    method Next() returns (r: Item)
      requires Valid()
      modifies this
      ensures Valid() && old(position) <= position <= |input|
      ensures (Reading(), r) == NextOf(old(Reading()), input, accepts)
      ensures old(queue) == [] && !old(sawDone) ==>
                (r.Fault? <==> Fails(input, accepts, old(position)))
                && (r.Eof? <==> Ends(input, accepts, old(position)))
      ensures r.Item? ==> Delivered() == old(Delivered()) + 1 && (position > old(position) || |queue| < old(|queue|))
    {
      hide Reachable, Taken, Fails, Ends;
      ghost var start := Reading();
      NextIs(start, input, accepts);
      if queue != [] {
        QueueMoves(start, input, accepts);
        var chunk := Dequeue();
        return Item(chunk);
      }
      if sawDone { return Eof; }
      while true
        invariant Valid() && queue == [] && !sawDone && Delivered() == start.delivered
                  && start.position <= position <= |input|
        invariant NextOf(Reading(), input, accepts) == NextOf(start, input, accepts)
        decreases |input| - position
      {
        if position == |input| { return Fault; }
        var ok := Take();
        if !ok { return Fault; }
        if queue != [] {
          QueueMoves(Reading(), input, accepts);
          var chunk := Dequeue();
          return Item(chunk);
        }
        if sawDone { return Eof; }
      }
    }
  }

  /** Read to the end. An error-free run delivers chunks numbered from zero that are exactly
      what the provider's events turn into: its content and tool deltas in order and one
      end, with the provider's finish and its usage exactly if it reported any, followed
      by heartbeats only. The run is error-free exactly for the streams that are well
      formed up to their done marker and whose chunks are all accepted. */
  method Drain(input: seq<Event>, accepts: Chunk -> bool) returns (chunks: seq<Chunk>, clean: bool, consumed: nat)
    ensures consumed <= |input|
    ensures clean ==>
              FaithfulRun(chunks, input[..consumed]) && input[..consumed] == UpToDone(input)
              && Bodies(chunks) == BodiesOf(UpToDone(input))
    ensures clean <==> ReadsToEnd(input, START) && Accepted(accepts, 0, BodiesOf(UpToDone(input)))
  {
    hide Taken, NextOf, Reachable, ReadsToEnd, Accepted, BodiesOf, FaithfulRun, Fails, Ends, CoreAt, TakesAll;
    var stream := new Stream(input, accepts);
    chunks, clean := [], false;
    NothingTaken(input, accepts);
    while true
      invariant fresh(stream) && stream.Valid() && stream.input == input && stream.accepts == accepts
      invariant stream.position <= |input| && TakesAll(input, accepts, stream.position)
      invariant |chunks| == stream.Delivered() && forall i :: 0 <= i < |chunks| ==>
                  chunks[i] == Chunk(i, stream.bodies[i])
      decreases |input| - stream.position, |stream.queue|
    {
      ghost var before := stream.Reading();
      CallIsClean(before, input, accepts);
      var r := stream.Next();
      match r {
        case Item(chunk) => chunks := chunks + [chunk];
        case Fault =>
          FaultIsUnclean(before, input, accepts);
          return chunks, false, stream.position;
        case Eof =>
          EofIs(before, input, accepts);
          assert chunks == Chunks(stream.bodies);
          EofIsClean(before, input, accepts);
          return chunks, true, stream.position;
      }
    }
  }
}
