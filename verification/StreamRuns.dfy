/** Whole runs of the normalizer: which streams are read without an error, what they
    carry, and what becomes of a run that goes on after one. */
module StreamRuns {
  import opened Wrappers
  import opened StreamModel

  // ---- exactly which events are taken ---------------------------------------------------

  /** What a well-formed event would queue. */
  function BodiesFor(c: Core, e: Event): seq<Body> {
    match e
    case Heartbeat => [HeartbeatBody]
    case Done => if c.ended || c.finish.None? then [] else [EndBody(c.finish.value, c.usage)]
    case Data(d) =>
      var finish := if c.finish.Some? then c.finish else FinishAt(e);
      var usage := if c.usage.Some? then c.usage else UsageAt(e);
      DataBodies(d) + if finish.Some? && usage.Some? then [EndBody(finish.value, usage)] else []
    case _ => []
  }

  lemma {:induction false} PushedIs(c: Core, bodies: seq<Body>, accepts: Chunk -> bool)
    ensures var (c', ok) := Pushed(c, bodies, accepts);
            && (ok <==> Accepted(accepts, |c.bodies|, bodies))
            && (ok ==> c' == c.(bodies := c.bodies + bodies))
            && c.bodies <= c'.bodies <= c.bodies + bodies && c' == c.(bodies := c'.bodies)
    decreases |bodies|
  {
    if bodies == [] {
      assert c.bodies + bodies == c.bodies;
    } else {
      var next := c.(bodies := c.bodies + [bodies[0]]);
      assert next.bodies + bodies[1..] == c.bodies + bodies;
      if Accepted(accepts, |c.bodies|, bodies) {
        assert accepts(Chunk(|c.bodies| + 0, bodies[0]));
      }
      if accepts(Chunk(|c.bodies|, bodies[0])) {
        PushedIs(next, bodies[1..], accepts);
        forall i | 0 <= i < |bodies|
        && Accepted(accepts, |next.bodies|, bodies[1..]) ensures accepts(Chunk(|c.bodies| + i, bodies[i])) {
          if i > 0 {
            assert accepts(Chunk(|next.bodies| + (i - 1), bodies[1..][i - 1]));
          }
        }
        if Accepted(accepts, |c.bodies|, bodies) {
          forall i | 0 <= i < |bodies[1..]| ensures accepts(Chunk(|next.bodies| + i, bodies[1..][i])) {
            assert accepts(Chunk(|c.bodies| + (i + 1), bodies[i + 1]));
          }
        }
      }
    }
  }

  lemma AcceptedJoins(accepts: Chunk -> bool, n: nat, x: seq<Body>, y: seq<Body>)
    ensures Accepted(accepts, n, x + y) <==> Accepted(accepts, n, x) && Accepted(accepts, n + |x|, y)
  {
    if Accepted(accepts, n, x + y) {
      forall i | 0 <= i < |x| ensures accepts(Chunk(n + i, x[i])) {
        assert (x + y)[i] == x[i];
      }
      forall i | 0 <= i < |y| ensures accepts(Chunk(n + |x| + i, y[i])) {
        assert (x + y)[|x| + i] == y[i] && n + (|x| + i) == n + |x| + i;
      }
    }
    if Accepted(accepts, n, x) && Accepted(accepts, n + |x|, y) {
      forall i | 0 <= i < |x + y| ensures accepts(Chunk(n + i, (x + y)[i])) {
        if i >= |x| {
          assert (x + y)[i] == y[i - |x|] && n + |x| + (i - |x|) == n + i;
        }
      }
    }
  }

  /** An envelope of at most one choice. */
  lemma OneChoice(d: Envelope)
    requires |d.choices| <= 1
    ensures FirstFinish(d.choices) == if |d.choices| == 1 then FinishOf(d.choices[0]) else None
    ensures DeltasOf(d.choices)
         == if |d.choices| == 0 then []
            else ContentOf(d.choices[0]) + ToolBodies(d.choices[0].index, d.choices[0].tools)
  {
    if |d.choices| == 1 {
      assert d.choices[1..] == [];
    }
  }

  /** What the choice of an event turns into. */
  function ChoiceOf(d: Envelope): seq<Body> {
    if |d.choices| == 1 then ChoiceBodies(d.choices[0]) else []
  }

  /** The choice and the extension, when the choice is well formed. */
  lemma ChoicesAre(c: Core, d: Envelope, accepts: Chunk -> bool)
    requires !c.ended
    ensures var bodies := if |d.choices| == 1 then ChoiceBodies(d.choices[0]) else [];
            var (c', ok) := ParsedChoices(c, d, accepts);
            && (ok <==> !d.broken && |d.choices| <= 1 && (|d.choices| == 1 ==> GoodChoice(d.choices[0]))
                        && (FinishAt(Data(d)).Some? ==> c.finish.None?) && Accepted(accepts, |c.bodies|, bodies))
            && (ok ==>
                  c' == c.(bodies := c.bodies + bodies,
                           finish := if c.finish.Some? then c.finish else FinishAt(Data(d))))
            && c.bodies <= c'.bodies && c'.usage == c.usage && c'.ended == c.ended && c'.done == c.done
            && (!ok ==> c'.finish == c.finish && c'.bodies <= c.bodies + bodies)
  {
    hide Pushed, ChoiceBodies, Accepted, GoodChoice, FirstFinish;
    if |d.choices| <= 1 {
      OneChoice(d);
    }
    if |d.choices| == 1 {
      PushedIs(c, ChoiceBodies(d.choices[0]), accepts);
      BadChoice(d.choices[0]);
    } else {
      PushedIs(c, [], accepts);
      assert Pushed(c, [], accepts) == (c, true) by { PushedNone(c, accepts); }
      assert c.bodies + [] == c.bodies;
    }
  }

  lemma BadChoice(c: Choice)
    ensures GoodChoice(c) ==> !c.broken && c.role != OtherRole
  {
  }

  lemma PushedNone(c: Core, accepts: Chunk -> bool)
    ensures Pushed(c, [], accepts) == (c, true)
  {
  }

  /** The end that is due with this finish and usage. */
  function EndFor(finish: Option<Finish>, usage: Option<(Text, bool)>): seq<Body> {
    if finish.Some? && usage.Some? then [EndBody(finish.value, usage)] else []
  }

  /** The tail of a data event: the extension and the end that is due. */
  lemma ConcludedIs(c: Core, d: Envelope, accepts: Chunk -> bool)
    requires !c.ended
    ensures var (c', ok) := Concluded(c, d, accepts);
            var tail := ExtensionOf(d) + EndFor(c.finish, c.usage);
            && (ok <==> Accepted(accepts, |c.bodies|, tail))
            && (ok ==> c'.bodies == c.bodies + tail && (c'.ended <==> c.finish.Some? && c.usage.Some?))
            && c'.done == c.done && (c'.ended ==> ok && c'.finish.None? && c'.usage.None?)
            && (!c'.ended ==> c'.finish == c.finish && c'.usage == c.usage)
  {
    hide Pushed, Accepted, EndBody;
    var extension, end := ExtensionOf(d), EndFor(c.finish, c.usage);
    AcceptedJoins(accepts, |c.bodies|, extension, end);
    PushedIs(c, extension, accepts);
    var pushed := Pushed(c, extension, accepts).0;
    PushedIs(pushed, end, accepts);
    NothingAccepted(accepts, |c.bodies| + |extension|);
    assert c.bodies + extension + end == c.bodies + (extension + end);
    assert extension + [] == extension;
  }

  function FinishAfter(c: Core, d: Envelope): Option<Finish> {
    if c.finish.Some? then c.finish else FinishAt(Data(d))
  }

  function UsageAfter(c: Core, d: Envelope): Option<(Text, bool)> {
    if c.usage.Some? then c.usage else UsageAt(Data(d))
  }

  predicate ChoiceFits(c: Core, d: Envelope) {
    && !d.broken && |d.choices| <= 1 && (|d.choices| == 1 ==> GoodChoice(d.choices[0]))
    && (FinishAt(Data(d)).Some? ==> c.finish.None?)
  }

  predicate UsageFits(c: Core, d: Envelope) {
    d.usage.UsageOf? ==> !d.usage.bad && c.usage.None?
  }

  lemma AdvanceFits(c: Core, d: Envelope)
    requires !c.ended
    ensures Advance(c.Stage(), Data(d)).Some? <==> ChoiceFits(c, d) && UsageFits(c, d)
    ensures ChoiceFits(c, d) && UsageFits(c, d) ==>
              Advance(c.Stage(), Data(d)).value
              == if FinishAfter(c, d).Some? && UsageAfter(c, d).Some? then Phase(false, false, true)
                 else Phase(FinishAfter(c, d).Some?, UsageAfter(c, d).Some?, false)
  {
    hide FirstFinish;
    if |d.choices| <= 1 {
      OneChoice(d);
    }
  }

  lemma UsageIsParsed(c: Core, d: Envelope)
    ensures ParsedUsage(c, d).1 <==> UsageFits(c, d)
    ensures UsageFits(c, d) ==> ParsedUsage(c, d).0 == c.(usage := UsageAfter(c, d))
  {
  }

  /** An event is taken exactly if it is well formed for the phase and validation accepts
      all that it turns into; then it turns into exactly that. */
  lemma DataIsTaken(c: Core, d: Envelope, accepts: Chunk -> bool)
    requires !c.ended
    ensures var (c', ok) := ParsedData(c, d, accepts);
            && (ok <==> Advance(c.Stage(), Data(d)).Some? && Accepted(accepts, |c.bodies|, BodiesFor(c, Data(d))))
            && (ok ==> c'.bodies == c.bodies + BodiesFor(c, Data(d)) && Advance(c.Stage(), Data(d)) == Some(c'.Stage())
                       && c'.done == c.done && (c'.ended ==> c'.finish.None? && c'.usage.None?)
                       && (!c'.ended ==> c'.finish == FinishAfter(c, d) && c'.usage == UsageAfter(c, d)))
  {
    hide Pushed, ChoiceBodies, Accepted, GoodChoice, ParsedChoices, ParsedUsage, EndBody, Concluded, Advance, UsageFits,
         FinishAt, UsageAt, UsageAfter;
    var choice := if |d.choices| == 1 then ChoiceBodies(d.choices[0]) else [];
    var tail := ExtensionOf(d) + EndFor(FinishAfter(c, d), UsageAfter(c, d));
    BodiesForData(c, d);
    ChoicesAre(c, d, accepts);
    AdvanceFits(c, d);
    AcceptedJoins(accepts, |c.bodies|, choice, tail);
    var (chosen, ok) := ParsedChoices(c, d, accepts);
    if ok {
      UsageIsParsed(chosen, d);
      UsageIsThat(c, chosen, d);
      var (used, fine) := ParsedUsage(chosen, d);
      if fine {
        ConcludedIs(used, d, accepts);
        assert c.bodies + choice + tail == c.bodies + (choice + tail);
      }
    }
  }

  lemma BodiesForData(c: Core, d: Envelope)
    ensures var choice := if |d.choices| == 1 then ChoiceBodies(d.choices[0]) else [];
            BodiesFor(c, Data(d)) == choice + (ExtensionOf(d) + EndFor(FinishAfter(c, d), UsageAfter(c, d)))
  {
    hide ChoiceBodies, EndBody;
  }

  lemma UsageIsThat(c: Core, chosen: Core, d: Envelope)
    requires chosen.usage == c.usage
    ensures UsageFits(chosen, d) <==> UsageFits(c, d)
    ensures UsageAfter(chosen, d) == UsageAfter(c, d)
  {
  }

  lemma EventIsTaken(c: Core, e: Event, accepts: Chunk -> bool)
    requires c.ended ==> c.finish.None? && c.usage.None?
    ensures var (c', ok) := Taken(c, e, accepts);
            && (ok <==> Advance(c.Stage(), e).Some? && Accepted(accepts, |c.bodies|, BodiesFor(c, e)))
            && (ok ==> c'.bodies == c.bodies + BodiesFor(c, e) && Advance(c.Stage(), e) == Some(c'.Stage()))
            && (ok && e.Data? && !c'.ended ==>
                  c'.finish == (if c.finish.Some? then c.finish else FinishAt(e))
                  && c'.usage == (if c.usage.Some? then c.usage else UsageAt(e)))
            && (ok && e.Heartbeat? ==> c' == c.(bodies := c'.bodies))
            && (ok && e.Done? ==> c'.ended)
            && (ok && c'.ended ==> c'.finish.None? && c'.usage.None?)
  {
    hide Pushed, ParsedData, DataBodies, Accepted;
    match e
    case Heartbeat => PushedIs(c, [HeartbeatBody], accepts);
    case Done =>
      NothingAccepted(accepts, |c.bodies|);
      assert c.bodies + [] == c.bodies;
      if !c.ended && c.finish.Some? {
        PushedIs(c.(done := true), [EndBody(c.finish.value, c.usage)], accepts);
      }
    case Data(d) => if !c.ended { DataIsTaken(c, d, accepts); }
    case _ =>
  }

  lemma NothingAccepted(accepts: Chunk -> bool, n: nat)
    ensures Accepted(accepts, n, [])
  {
  }

  // ---- error-free runs --------------------------------------------------------------------

  /** After n events of which none was refused: what was queued is what those events turn
      into, all accepted, and what is pending is what they brought. */
  ghost predicate CleanSoFar(input: seq<Event>, accepts: Chunk -> bool, n: nat)
    requires n <= |input|
  {
    var core, events := CoreAt(input, accepts, n), input[..n];
    && core.bodies == BodiesOf(events) && Accepted(accepts, 0, core.bodies)
    && (core.ended ==> core.finish.None? && core.usage.None? && FinishIn(events).Some?)
    && (!core.ended ==> core.finish == FinishIn(events) && core.usage == UsageIn(events)
                        && !(FinishIn(events).Some? && UsageIn(events).Some?))
    && (core.ended && DoneLast(events, false) ==> UsageIn(events).Some?)
  }

  lemma SeenAppend(events: seq<Event>, e: Event)
    ensures UsageIn(events + [e]) == if UsageIn(events).Some? then UsageIn(events) else UsageAt(e)
    ensures FinishIn(events + [e]) == if FinishIn(events).Some? then FinishIn(events) else FinishAt(e)
    ensures PayloadsOf(events + [e]) == PayloadsOf(events) + PayloadsIn(e)
    ensures BodiesOf(events + [e]) == BodiesOf(events) + BodiesAt(events, e)
  {
    assert (events + [e])[..|events|] == events;
  }

  lemma QuietEvents(e: Event)
    ensures !e.Data? && !e.Broken? ==> PayloadsIn(e) == [] && UsageAt(e) == None && FinishAt(e) == None
  {
  }

  lemma CleanStep(input: seq<Event>, accepts: Chunk -> bool, n: nat)
    requires n < |input| && CleanSoFar(input, accepts, n) && Takes(input, accepts, n) && DoneLast(input[..n], false)
    ensures CleanSoFar(input, accepts, n + 1)
    ensures BodiesFor(CoreAt(input, accepts, n), input[n]) == BodiesAt(input[..n], input[n])
  {
    hide Taken, Accepted, BodiesOf, FinishIn, UsageIn, DataBodies, FinishAt, UsageAt, PayloadsOf, PayloadsIn, DoneLast;
    var c, e, events := CoreAt(input, accepts, n), input[n], input[..n];
    assert input[..n + 1] == events + [e];
    SeenAppend(events, e);
    QuietEvents(e);
    EventIsTaken(c, e, accepts);
    AcceptedJoins(accepts, 0, c.bodies, BodiesFor(c, e));
    AdvanceEnds(c.Stage(), e);
    NotDoneBefore(events, e);
  }

  lemma NotDoneBefore(events: seq<Event>, e: Event)
    ensures DoneLast(events + [e], false) ==> !e.Done?
  {
    if DoneLast(events + [e], false) {
      assert (events + [e])[|events|] == e;
    }
  }

  lemma AdvanceEnds(p: Phase, e: Event)
    ensures e.Data? && Advance(p, e).Some? ==> !p.ended
    ensures e.Data? && Advance(p, e).Some? ==>
              (Advance(p, e).value.ended <==> (p.finish || FinishAt(e).Some?) && (p.usage || UsageAt(e).Some?))
    ensures e.Broken? || e.EmptyData? ==> Advance(p, e).None?
  {
    hide FirstFinish;
    if e.Data? && |e.envelope.choices| <= 1 {
      OneChoice(e.envelope);
    }
  }

  lemma {:induction false} CleanAfter(input: seq<Event>, accepts: Chunk -> bool, n: nat)
    requires n <= |input| && TakesAll(input, accepts, n) && forall i :: 0 <= i < n - 1 ==> !input[i].Done?
    ensures CleanSoFar(input, accepts, n)
  {
    hide Takes, Taken, CoreAt, CleanSoFar, DoneLast;
    if n == 0 {
      CleanStart(input, accepts);
    } else {
      CleanAfter(input, accepts, n - 1);
      NoDoneYet(input, n - 1);
      CleanStep(input, accepts, n - 1);
    }
  }

  lemma CleanStart(input: seq<Event>, accepts: Chunk -> bool)
    ensures CleanSoFar(input, accepts, 0)
  {
  }

  /** What was queued ends once exactly as the pending finish and usage said. */
  lemma {:induction false} CleanIsFaithful(input: seq<Event>, accepts: Chunk -> bool, n: nat)
    requires n <= |input| && TakesAll(input, accepts, n) && forall i :: 0 <= i < n - 1 ==> !input[i].Done?
    ensures Payloads(CoreAt(input, accepts, n).bodies) == PayloadsOf(input[..n])
    ensures CoreAt(input, accepts, n).ended ==>
              FinishIn(input[..n]).Some?
              && EndsOnce(CoreAt(input, accepts, n).bodies, EndBody(FinishIn(input[..n]).value, UsageIn(input[..n])))
    ensures !CoreAt(input, accepts, n).ended ==> NoEnd(CoreAt(input, accepts, n).bodies)
  {
    hide Takes, Taken, CleanSoFar, Payloads, EndsOnce, NoEnd, PayloadsOf, UsageIn, FinishIn, DoneLast;
    NothingYet();
    if n > 0 {
      CleanIsFaithful(input, accepts, n - 1);
      CleanAfter(input, accepts, n - 1);
      NoDoneYet(input, n - 1);
      FaithfulStep(input, accepts, n - 1);
    } else {
      assert input[..0] == [];
    }
  }

  lemma NothingYet()
    ensures Payloads([]) == PayloadsOf([]) && NoEnd([])
  {
  }

  lemma {:induction false} PayloadsJoin(x: seq<Body>, y: seq<Body>)
    ensures Payloads(x + y) == Payloads(x) + Payloads(y)
    decreases |y|
  {
    if y == [] {
      assert x + y == x;
    } else {
      PayloadsJoin(x, y[..|y| - 1]);
      assert (x + y)[..|x + y| - 1] == x + y[..|y| - 1];
    }
  }

  lemma PayloadsOne(b: Body)
    ensures Payloads([b]) == if IsPayload(b) then [b] else []
    ensures Payloads([]) == []
  {
    assert [b][..0] == [];
  }

  lemma {:induction false} ToolsArePayloads(choice: int, tools: seq<Tool>)
    ensures Payloads(GoodTools(choice, tools)) == GoodTools(choice, tools) && NoEnd(GoodTools(choice, tools))
    decreases |tools|
  {
    hide Payloads;
    if tools == [] || tools[0].bad {
      PayloadsOne(Extension);
    } else {
      ToolsArePayloads(choice, tools[1..]);
      PayloadsJoin([ToolDelta(choice, tools[0].text)], GoodTools(choice, tools[1..]));
      PayloadsOne(ToolDelta(choice, tools[0].text));
    }
  }

  lemma {:induction false} GoodToolsAre(choice: int, tools: seq<Tool>)
    ensures GoodTools(choice, tools) <= ToolBodies(choice, tools)
    ensures (forall i :: 0 <= i < |tools| ==> !tools[i].bad) <==> GoodTools(choice, tools) == ToolBodies(choice, tools)
    decreases |tools|
  {
    if tools != [] {
      GoodToolsAre(choice, tools[1..]);
      assert (forall i :: 0 <= i < |tools| ==> !tools[i].bad)
        <==> !tools[0].bad && forall i :: 0 <= i < |tools[1..]| ==> !tools[1..][i].bad by {
        assert forall i :: 0 < i < |tools| ==> tools[i] == tools[1..][i - 1];
      }
      if !tools[0].bad && GoodTools(choice, tools) == ToolBodies(choice, tools) {
        assert GoodTools(choice, tools)[1..] == GoodTools(choice, tools[1..]);
        assert ToolBodies(choice, tools)[1..] == ToolBodies(choice, tools[1..]);
      }
    }
  }

  /** The payloads of a choice are its deltas, up to the first bad tool call. */
  lemma ChoicePayloads(c: Choice)
    ensures Payloads(ChoiceBodies(c)) == ContentOf(c) + GoodTools(c.index, c.tools) && NoEnd(ChoiceBodies(c))
    ensures GoodTools(c.index, c.tools) <= ToolBodies(c.index, c.tools)
    ensures !c.broken && c.role != OtherRole ==>
              (GoodChoice(c) <==> GoodTools(c.index, c.tools) == ToolBodies(c.index, c.tools))
  {
    hide Payloads, ChoiceBodies, GoodTools, ToolBodies, ContentOf, NoEnd;
    ToolsArePayloads(c.index, c.tools);
    GoodToolsAre(c.index, c.tools);
    var start := if c.role == Assistant then [MessageStart(c.index)] else [];
    ChoiceParts(c);
    StartPayloads(c);
    PayloadsJoin(start + ContentOf(c), GoodTools(c.index, c.tools));
    PayloadsJoin(start, ContentOf(c));
    NoEndJoins(start + ContentOf(c), GoodTools(c.index, c.tools));
    NoEndJoins(start, ContentOf(c));
    assert [] + ContentOf(c) == ContentOf(c);
  }

  lemma ChoiceParts(c: Choice)
    ensures ChoiceBodies(c) == (if c.role == Assistant then [MessageStart(c.index)] else []) + ContentOf(c)
                               + GoodTools(c.index, c.tools)
  {
    hide GoodTools, ContentOf;
  }

  /** A choice turns into a start exactly for the assistant's role, a content delta exactly
      for some content, and its tool calls, in this order. */
  lemma ChoiceIsRendered(c: Choice)
    ensures var r, tools := ChoiceBodies(c), GoodTools(c.index, c.tools);
            var start := if c.role.Assistant? then 1 else 0;
            var first := start + if c.content == NO_TEXT then 0 else 1;
            && |r| == first + |tools|
            && (start == 1 ==> r[0] == MessageStart(c.index))
            && (first > start ==> r[start] == ContentDelta(c.index, c.content))
            && forall i :: 0 <= i < |tools| ==> r[first + i] == tools[i]
  {
    hide ChoiceBodies, GoodTools;
    ChoiceParts(c);
  }

  lemma StartPayloads(c: Choice)
    ensures Payloads(ContentOf(c)) == ContentOf(c) && NoEnd(ContentOf(c))
    ensures Payloads([MessageStart(c.index)]) == [] && NoEnd([MessageStart(c.index)])
    ensures Payloads([]) == [] && NoEnd([])
  {
    hide Payloads;
    PayloadsOne(MessageStart(c.index));
    PayloadsOne(ContentDelta(c.index, c.content));
  }

  lemma DataPayloads(d: Envelope)
    requires |d.choices| <= 1 && (|d.choices| == 1 ==> GoodChoice(d.choices[0]))
    ensures Payloads(DataBodies(d)) == PayloadsIn(Data(d)) && NoEnd(DataBodies(d))
  {
    hide Payloads, ChoiceBodies, GoodChoice, DeltasOf;
    OneChoice(d);
    var choice := if |d.choices| == 1 then ChoiceBodies(d.choices[0]) else [];
    var extension := ExtensionOf(d);
    PayloadsJoin(choice, extension);
    PayloadsOne(Extension);
    if |d.choices| == 1 {
      BadChoice(d.choices[0]);
      ChoicePayloads(d.choices[0]);
    }
  }

  lemma EndThenHeartbeat(bodies: seq<Body>, end: Body)
    requires EndsOnce(bodies, end)
    ensures EndsOnce(bodies + [HeartbeatBody], end)
  {
    var k :| EndsAt(bodies, k, end);
    assert (bodies + [HeartbeatBody])[..k] == bodies[..k];
    assert EndsAt(bodies + [HeartbeatBody], k, end);
  }

  lemma EndNow(bodies: seq<Body>, end: Body)
    requires NoEnd(bodies) && end.MessageEnd?
    ensures EndsOnce(bodies + [end], end)
  {
    assert (bodies + [end])[..|bodies|] == bodies;
    assert EndsAt(bodies + [end], |bodies|, end);
  }

  lemma NoEndJoins(x: seq<Body>, y: seq<Body>)
    ensures NoEnd(x + y) <==> NoEnd(x) && NoEnd(y)
  {
    if NoEnd(x + y) {
      forall i | 0 <= i < |x| ensures !x[i].MessageEnd? { assert (x + y)[i] == x[i]; }
      forall i | 0 <= i < |y| ensures !y[i].MessageEnd? { assert (x + y)[|x| + i] == y[i]; }
    }
  }

  /** What one taken event adds. */
  lemma FaithfulStep(input: seq<Event>, accepts: Chunk -> bool, n: nat)
    requires n < |input| && CleanSoFar(input, accepts, n) && Takes(input, accepts, n) && DoneLast(input[..n], false)
    requires var c := CoreAt(input, accepts, n);
             && Payloads(c.bodies) == PayloadsOf(input[..n])
             && (c.ended ==>
                   FinishIn(input[..n]).Some?
                   && EndsOnce(c.bodies, EndBody(FinishIn(input[..n]).value, UsageIn(input[..n]))))
             && (!c.ended ==> NoEnd(c.bodies))
    ensures var c := CoreAt(input, accepts, n + 1);
            && Payloads(c.bodies) == PayloadsOf(input[..n + 1])
            && (c.ended ==> FinishIn(input[..n + 1]).Some?
                            && EndsOnce(c.bodies, EndBody(FinishIn(input[..n + 1]).value, UsageIn(input[..n + 1]))))
            && (!c.ended ==> NoEnd(c.bodies))
  {
    hide Taken, Accepted, BodiesOf, FinishIn, UsageIn, DataBodies, FinishAt, UsageAt, PayloadsOf, PayloadsIn, Payloads,
         EndsOnce, NoEnd, GoodChoice, DoneLast;
    var c, e, events := CoreAt(input, accepts, n), input[n], input[..n];
    assert input[..n + 1] == events + [e];
    SeenAppend(events, e);
    QuietEvents(e);
    EventIsTaken(c, e, accepts);
    AdvanceEnds(c.Stage(), e);
    CleanStep(input, accepts, n);
    PayloadsJoin(c.bodies, BodiesFor(c, e));
    PayloadsOne(HeartbeatBody);
    match e
    case Heartbeat => AddHeartbeat(c.bodies);
    case Done =>
      assert c.bodies + [] == c.bodies && PayloadsOf(events) + [] == PayloadsOf(events);
      if !c.ended {
        NothingYet();
        AddEnd(c.bodies, [], EndBody(c.finish.value, c.usage));
        assert [] + [EndBody(c.finish.value, c.usage)] == [EndBody(c.finish.value, c.usage)];
      }
    case Data(d) =>
      DataPayloads(d);
      NoEndJoins(c.bodies, DataBodies(d));
      var finish, usage := FinishIn(events + [e]), UsageIn(events + [e]);
      if finish.Some? && usage.Some? {
        AddEnd(c.bodies, DataBodies(d), EndBody(finish.value, usage));
      } else {
        assert DataBodies(d) + [] == DataBodies(d);
      }
    case _ =>
  }

  lemma AddHeartbeat(bodies: seq<Body>)
    ensures NoEnd(bodies) ==> NoEnd(bodies + [HeartbeatBody])
    ensures forall end :: EndsOnce(bodies, end) ==> EndsOnce(bodies + [HeartbeatBody], end)
    ensures Payloads(bodies + [HeartbeatBody]) == Payloads(bodies)
  {
    hide Payloads, EndsOnce;
    PayloadsJoin(bodies, [HeartbeatBody]);
    PayloadsOne(HeartbeatBody);
    forall end | EndsOnce(bodies, end) ensures EndsOnce(bodies + [HeartbeatBody], end) {
      EndThenHeartbeat(bodies, end);
    }
  }

  lemma AddEnd(bodies: seq<Body>, more: seq<Body>, end: Body)
    requires NoEnd(bodies) && NoEnd(more) && end.MessageEnd?
    ensures EndsOnce(bodies + (more + [end]), end)
    ensures Payloads(more + [end]) == Payloads(more)
  {
    hide Payloads, EndsOnce, NoEnd;
    NoEndJoins(bodies, more);
    EndNow(bodies + more, end);
    assert bodies + more + [end] == bodies + (more + [end]);
    PayloadsJoin(more, [end]);
    PayloadsOne(end);
  }

  // ---- which streams are read without an error ------------------------------------------

  lemma {:induction false} UpToDoneIs(events: seq<Event>, p: Phase)
    ensures var m := |UpToDone(events)|;
            && m <= |events| && UpToDone(events) == events[..m]
            && (forall i :: 0 <= i < m - 1 ==> !events[i].Done?)
            && (ReadsToEnd(events, p) ==> 1 <= m && events[m - 1].Done?)
    decreases |events|
  {
    hide Advance;
    if events != [] {
      UpToDoneIs(events[1..], if Advance(p, events[0]).Some? then Advance(p, events[0]).value else p);
      if !events[0].Done? {
        var m := |UpToDone(events)|;
        forall i | 0 <= i < m - 1 ensures !events[i].Done? {
          if i > 0 { assert events[i] == events[1..][i - 1]; }
        }
        assert events[..m] == [events[0]] + events[1..][..m - 1];
      }
    }
  }

  lemma {:induction false} BodiesOfPrefix(events: seq<Event>, n: nat)
    requires n <= |events|
    ensures BodiesOf(events[..n]) <= BodiesOf(events)
    decreases |events| - n
  {
    if n < |events| {
      BodiesOfPrefix(events, n + 1);
      assert events[..n + 1][..n] == events[..n];
    } else {
      assert events[..n] == events;
    }
  }

  /** After well-formed events, what an event would queue is what it turns into. */
  lemma BodiesAgree(input: seq<Event>, accepts: Chunk -> bool, n: nat)
    requires n < |input| && CleanSoFar(input, accepts, n) && DoneLast(input[..n], false)
    requires Advance(CoreAt(input, accepts, n).Stage(), input[n]).Some?
    ensures BodiesFor(CoreAt(input, accepts, n), input[n]) == BodiesAt(input[..n], input[n])
    ensures CoreAt(input, accepts, n).ended ==>
              CoreAt(input, accepts, n).finish.None? && CoreAt(input, accepts, n).usage.None?
  {
    hide CoreAt, Accepted, BodiesOf, FinishIn, UsageIn, DataBodies, FinishAt, UsageAt, PayloadsOf, PayloadsIn,
         DoneLast;
    SeenAppend(input[..n], input[n]);
    AdvanceEnds(CoreAt(input, accepts, n).Stage(), input[n]);
  }

  lemma {:induction false} CleanUpTo(input: seq<Event>, accepts: Chunk -> bool, n: nat)
    requires ReadsToEnd(input, START) && Accepted(accepts, 0, BodiesOf(UpToDone(input)))
             && n <= |UpToDone(input)| <= |input|
    ensures TakesAll(input, accepts, n)
    ensures n < |UpToDone(input)| ==> ReadsToEnd(input[n..], CoreAt(input, accepts, n).Stage())
  {
    hide Taken, Accepted, Advance, BodiesFor, BodiesAt, BodiesOf, CleanSoFar, DoneLast, CoreAt, Takes, FinishIn,
         UsageIn, PayloadsOf;
    if n == 0 {
      assert input[0..] == input;
      FreshStage(input, accepts);
    } else {
      var k := n - 1;
      CleanUpTo(input, accepts, k);
      TakesIs(input, accepts, k);
      CoreStep(input, accepts, k);
      UpToDoneIs(input, START);
      CleanAfter(input, accepts, k);
      NoDoneYet(input, k);
      var c, e := CoreAt(input, accepts, k), input[k];
      BodiesAgree(input, accepts, k);
      BodiesOfPrefix(UpToDone(input), n);
      assert UpToDone(input)[..n] == input[..n] == input[..k] + [e];
      SeenAppend(input[..k], e);
      AcceptedPrefix(accepts, BodiesOf(input[..n]), BodiesOf(UpToDone(input)));
      CleanBodies(input, accepts, k);
      AcceptedJoins(accepts, 0, c.bodies, BodiesFor(c, e));
      EventIsTaken(c, e, accepts);
      assert input[k..][1..] == input[n..];
    }
  }

  lemma CleanBodies(input: seq<Event>, accepts: Chunk -> bool, n: nat)
    requires n <= |input| && CleanSoFar(input, accepts, n)
    ensures CoreAt(input, accepts, n).bodies == BodiesOf(input[..n]) && Accepted(accepts, 0, BodiesOf(input[..n]))
  {
  }

  lemma NoDoneYet(input: seq<Event>, n: nat)
    requires n <= |input| && forall i :: 0 <= i < n ==> !input[i].Done?
    ensures DoneLast(input[..n], false)
  {
  }

  lemma AcceptedPrefix(accepts: Chunk -> bool, x: seq<Body>, y: seq<Body>)
    requires x <= y && Accepted(accepts, 0, y)
    ensures Accepted(accepts, 0, x)
  {
    assert y == x + y[|x|..];
    AcceptedJoins(accepts, 0, x, y[|x|..]);
  }

  /** From event k on, the taken events read to the end. */
  lemma {:induction false} TakenReadsToEnd(input: seq<Event>, accepts: Chunk -> bool, n: nat, k: nat)
    requires k < n <= |input| && TakesAll(input, accepts, n) && input[n - 1].Done? && forall i :: 0 <= i < n - 1 ==>
               !input[i].Done?
    ensures ReadsToEnd(input[k..], CoreAt(input, accepts, k).Stage())
    decreases n - k
  {
    hide Taken, Accepted, Advance, BodiesFor, CleanSoFar;
    CleanAfter(input, accepts, k);
    EndedIsClear(input, accepts, k);
    TakesIs(input, accepts, k);
    CoreStep(input, accepts, k);
    EventIsTaken(CoreAt(input, accepts, k), input[k], accepts);
    assert input[k..][0] == input[k] && input[k..][1..] == input[k + 1..];
    if k < n - 1 {
      TakenReadsToEnd(input, accepts, n, k + 1);
    }
  }

  lemma CoreStep(input: seq<Event>, accepts: Chunk -> bool, k: nat)
    requires k < |input|
    ensures CoreAt(input, accepts, k + 1) == Taken(CoreAt(input, accepts, k), input[k], accepts).0
  {
    hide Taken;
  }

  lemma EndedIsClear(input: seq<Event>, accepts: Chunk -> bool, n: nat)
    requires n <= |input| && CleanSoFar(input, accepts, n)
    ensures CoreAt(input, accepts, n).ended ==>
              CoreAt(input, accepts, n).finish.None? && CoreAt(input, accepts, n).usage.None?
  {
  }

  lemma {:induction false} UpToDoneEnds(events: seq<Event>, n: nat)
    requires 1 <= n <= |events| && events[n - 1].Done? && forall i :: 0 <= i < n - 1 ==> !events[i].Done?
    ensures UpToDone(events) == events[..n]
    decreases |events|
  {
    if n == 1 {
      assert events[..1] == [events[0]];
    } else {
      forall i | 0 <= i < n - 2 ensures !events[1..][i].Done? {
        assert events[1..][i] == events[i + 1];
      }
      UpToDoneEnds(events[1..], n - 1);
      assert events[..n] == [events[0]] + events[1..][..n - 1];
    }
  }

  /** A stream is read to its done marker without an error if and only if it is well
      formed and validation accepts every chunk that it turns into. */
  lemma CleanIff(input: seq<Event>, accepts: Chunk -> bool, n: nat)
    requires 1 <= n <= |input| && input[n - 1].Done? && forall i :: 0 <= i < n - 1 ==> !input[i].Done?
    ensures UpToDone(input) == input[..n]
    ensures TakesAll(input, accepts, n) <==> ReadsToEnd(input, START) && Accepted(accepts, 0, BodiesOf(UpToDone(input)))
  {
    hide Takes, Accepted, Advance, BodiesOf, CleanSoFar, CoreAt;
    UpToDoneEnds(input, n);
    if TakesAll(input, accepts, n) {
      TakenReadsToEnd(input, accepts, n, 0);
      assert input[0..] == input && CoreAt(input, accepts, 0).Stage() == START by { FreshStage(input, accepts); }
      CleanAfter(input, accepts, n);
      CleanBodies(input, accepts, n);
    }
    if ReadsToEnd(input, START) && Accepted(accepts, 0, BodiesOf(UpToDone(input))) {
      CleanUpTo(input, accepts, n);
    }
  }

  lemma FreshStage(input: seq<Event>, accepts: Chunk -> bool)
    ensures CoreAt(input, accepts, 0) == FRESH && CoreAt(input, accepts, 0).Stage() == START
  {
  }

  // ---- runs that go on after an error ---------------------------------------------------

  /** How many of these bodies validation accepts, numbered from n, before it refuses one. */
  function Fit(accepts: Chunk -> bool, n: nat, bodies: seq<Body>): nat
    decreases |bodies|
  {
    if bodies == [] || !accepts(Chunk(n, bodies[0])) then 0 else 1 + Fit(accepts, n + 1, bodies[1..])
  }

  /** A run in outline: how many chunks were queued, which finish and which usage were
      noted first, and whether the end was sent. */
  datatype Outline = Outline(sent: nat, finish: Option<Finish>, usage: Option<(Text, bool)>, ended: bool)

  const NOTHING := Outline(0, None, None, false)

  /** The event has at most one choice, a good one, and all that it turns into is accepted. */
  ghost predicate ReadsChoice(o: Outline, d: Envelope, accepts: Chunk -> bool) {
    && !o.ended && !d.broken && |d.choices| <= 1 && (|d.choices| == 1 ==> GoodChoice(d.choices[0]))
    && Accepted(accepts, o.sent, ChoiceOf(d))
  }

  /** And its finish, if it has any, is the first. */
  ghost predicate ReadsFinish(o: Outline, d: Envelope, accepts: Chunk -> bool) {
    ReadsChoice(o, d, accepts) && (FirstFinish(d.choices).Some? ==> o.finish.None?)
  }

  /** And its usage, if it has any, is good and the first. */
  ghost predicate ReadsUsage(o: Outline, d: Envelope, accepts: Chunk -> bool) {
    ReadsFinish(o, d, accepts) && (d.usage.UsageOf? ==> !d.usage.bad && o.usage.None?)
  }

  ghost function FinishBy(o: Outline, d: Envelope, accepts: Chunk -> bool): Option<Finish> {
    if o.finish.None? && ReadsFinish(o, d, accepts) then FirstFinish(d.choices) else o.finish
  }

  ghost function UsageBy(o: Outline, d: Envelope, accepts: Chunk -> bool): Option<(Text, bool)> {
    if o.usage.None? && ReadsUsage(o, d, accepts) then Reported(d.usage) else o.usage
  }

  /** What of the choice is queued, be the event taken or refused. */
  ghost function Chosen(o: Outline, d: Envelope, accepts: Chunk -> bool): seq<Body> {
    FitIs(accepts, o.sent, ChoiceOf(d));
    if o.ended || d.broken || |d.choices| != 1 || d.choices[0].broken || d.choices[0].role == OtherRole then []
    else ChoiceOf(d)[..Fit(accepts, o.sent, ChoiceOf(d))]
  }

  ghost function TailOf(o: Outline, d: Envelope, accepts: Chunk -> bool): seq<Body> {
    ExtensionOf(d) + EndFor(FinishBy(o, d, accepts), UsageBy(o, d, accepts))
  }

  /** The outline after one more event, be it taken or refused. */
  ghost function Outlined(o: Outline, e: Event, accepts: Chunk -> bool): Outline {
    match e
    case Heartbeat => o.(sent := o.sent + Fit(accepts, o.sent, [HeartbeatBody]))
    case Done =>
      if o.ended || o.finish.None? || !accepts(Chunk(o.sent, EndBody(o.finish.value, o.usage))) then o
      else o.(sent := o.sent + 1, ended := true)
    case Data(d) =>
      var sent := o.sent + |Chosen(o, d, accepts)|;
      var finish, usage, tail := FinishBy(o, d, accepts), UsageBy(o, d, accepts), TailOf(o, d, accepts);
      if !ReadsUsage(o, d, accepts) then Outline(sent, finish, usage, o.ended)
      else Outline(sent + Fit(accepts, sent, tail), finish, usage,
                   finish.Some? && usage.Some? && Accepted(accepts, sent, tail))
    case _ => o
  }

  ghost function OutlineAt(input: seq<Event>, accepts: Chunk -> bool, n: nat): Outline
    requires n <= |input|
  {
    if n == 0 then NOTHING else Outlined(OutlineAt(input, accepts, n - 1), input[n - 1], accepts)
  }

  /** The event holds no delta, or it is one that the stream can read, its one choice is
      good, and validation accepts all that the choice turns into. */
  ghost predicate KeepsDeltas(o: Outline, e: Event, accepts: Chunk -> bool) {
    PayloadsIn(e) == [] || (e.Data? && |e.envelope.choices| == 1 && ReadsChoice(o, e.envelope, accepts))
  }

  /** Each event keeps its deltas, the end is sent, and it is made of the first finish and
      the first usage of the provider. */
  ghost predicate NothingLost(input: seq<Event>, accepts: Chunk -> bool, n: nat)
    requires n <= |input|
  {
    && (forall i :: 0 <= i < n ==> KeepsDeltas(OutlineAt(input, accepts, i), input[i], accepts))
    && OutlineAt(input, accepts, n).ended && OutlineAt(input, accepts, n).finish == FinishIn(input[..n])
    && OutlineAt(input, accepts, n).usage == UsageIn(input[..n])
  }

  lemma {:induction false} FitIs(accepts: Chunk -> bool, n: nat, bodies: seq<Body>)
    ensures Fit(accepts, n, bodies) <= |bodies|
    ensures Fit(accepts, n, bodies) == |bodies| <==> Accepted(accepts, n, bodies)
    decreases |bodies|
  {
    if bodies != [] {
      FitIs(accepts, n + 1, bodies[1..]);
      AcceptedJoins(accepts, n, [bodies[0]], bodies[1..]);
      assert [bodies[0]] + bodies[1..] == bodies;
      OneAccepted(accepts, n, bodies[0]);
    }
  }

  lemma OneAccepted(accepts: Chunk -> bool, n: nat, body: Body)
    ensures Accepted(accepts, n, [body]) <==> accepts(Chunk(n, body))
  {
    if Accepted(accepts, n, [body]) {
      assert accepts(Chunk(n + 0, [body][0]));
    }
  }

  lemma {:induction false} FitJoins(accepts: Chunk -> bool, n: nat, x: seq<Body>, y: seq<Body>)
    ensures Fit(accepts, n, x + y)
         == if Fit(accepts, n, x) == |x| then |x| + Fit(accepts, n + |x|, y) else Fit(accepts, n, x)
    decreases |x|
  {
    if x == [] {
      assert x + y == y;
    } else {
      assert (x + y)[1..] == x[1..] + y;
      FitIs(accepts, n + 1, x[1..]);
      FitJoins(accepts, n + 1, x[1..], y);
    }
  }

  lemma {:induction false} PushedFits(c: Core, bodies: seq<Body>, accepts: Chunk -> bool)
    ensures Fit(accepts, |c.bodies|, bodies) <= |bodies|
    ensures Pushed(c, bodies, accepts).0.bodies == c.bodies + bodies[..Fit(accepts, |c.bodies|, bodies)]
    decreases |bodies|
  {
    if bodies != [] && accepts(Chunk(|c.bodies|, bodies[0])) {
      var next := c.(bodies := c.bodies + [bodies[0]]);
      PushedFits(next, bodies[1..], accepts);
      var n := Fit(accepts, |next.bodies|, bodies[1..]);
      assert next.bodies + bodies[1..][..n] == c.bodies + bodies[..n + 1];
    } else {
      assert c.bodies + bodies[..0] == c.bodies;
    }
  }

  lemma PayloadsPrefix(x: seq<Body>, y: seq<Body>)
    requires x <= y
    ensures Payloads(x) <= Payloads(y)
  {
    assert y == x + y[|x|..];
    PayloadsJoin(x, y[|x|..]);
  }

  lemma NoEndPrefix(x: seq<Body>, y: seq<Body>)
    requires x <= y && NoEnd(y)
    ensures NoEnd(x)
  {
    forall i | 0 <= i < |x| ensures !x[i].MessageEnd? {
      assert x[i] == y[i];
    }
  }

  /** The outline speaks of this stream. */
  ghost predicate Depicts(o: Outline, c: Core) {
    o.sent == |c.bodies| && o.ended == c.ended && (!c.ended ==> o.finish == c.finish && o.usage == c.usage)
  }

  function OutlineOf(c: Core): Outline {
    Outline(|c.bodies|, c.finish, c.usage, c.ended)
  }

  /** What the choice of an event leaves, whether or not it is accepted. */
  lemma ChoicesGive(c: Core, o: Outline, d: Envelope, accepts: Chunk -> bool)
    requires !c.ended && Depicts(o, c)
    ensures ParsedChoices(c, d, accepts).0 == c.(bodies := c.bodies + Chosen(o, d, accepts),
                                                finish := FinishBy(o, d, accepts))
    ensures ParsedChoices(c, d, accepts).1 <==> ReadsFinish(o, d, accepts)
    ensures ReadsFinish(o, d, accepts) ==> Chosen(o, d, accepts) == ChoiceOf(d)
  {
    hide Pushed, ChoiceBodies, Accepted, GoodChoice, Fit, FirstFinish;
    ChoicesAre(c, d, accepts);
    FitIs(accepts, o.sent, ChoiceOf(d));
    if |d.choices| == 1 {
      PushedFits(c, ChoiceBodies(d.choices[0]), accepts);
      PushedIs(c, ChoiceBodies(d.choices[0]), accepts);
      BadChoice(d.choices[0]);
    } else {
      assert c.bodies + [] == c.bodies;
    }
    if |d.choices| <= 1 {
      OneChoice(d);
    }
  }

  lemma {:induction false} LastIsPayload(c: Choice)
    requires ContentOf(c) + GoodTools(c.index, c.tools) != []
    ensures ChoiceBodies(c) != [] && IsPayload(ChoiceBodies(c)[|ChoiceBodies(c)| - 1])
  {
    ToolsAreDeltas(c.index, c.tools);
  }

  lemma {:induction false} ToolsAreDeltas(choice: int, tools: seq<Tool>)
    ensures forall i :: 0 <= i < |GoodTools(choice, tools)| ==> GoodTools(choice, tools)[i].ToolDelta?
    decreases |tools|
  {
    if tools != [] {
      ToolsAreDeltas(choice, tools[1..]);
    }
  }

  /** What part of a choice holds all its deltas. */
  lemma PartOfChoice(c: Choice, q: seq<Body>)
    requires q <= ChoiceBodies(c)
    ensures Payloads(q) <= ContentOf(c) + ToolBodies(c.index, c.tools) && NoEnd(q)
    ensures !c.broken && c.role != OtherRole && ContentOf(c) + ToolBodies(c.index, c.tools) != [] ==>
              (Payloads(q) == ContentOf(c) + ToolBodies(c.index, c.tools) <==> q == ChoiceBodies(c) && GoodChoice(c))
  {
    hide Payloads, ChoiceBodies, GoodChoice, NoEnd, GoodTools, ToolBodies;
    ChoicePayloads(c);
    PayloadsPrefix(q, ChoiceBodies(c));
    NoEndPrefix(q, ChoiceBodies(c));
    var all, good := ToolBodies(c.index, c.tools), GoodTools(c.index, c.tools);
    assert ContentOf(c) + good <= ContentOf(c) + all;
    if ContentOf(c) + good != [] && q != ChoiceBodies(c) {
      LastIsPayload(c);
      var most := ChoiceBodies(c)[..|ChoiceBodies(c)| - 1];
      var last := ChoiceBodies(c)[|ChoiceBodies(c)| - 1];
      assert ChoiceBodies(c) == most + [last] && q <= most;
      PayloadsJoin(most, [last]);
      PayloadsOne(last);
      PayloadsPrefix(q, most);
    }
    if good != all {
      assert |good| < |all|;
    }
  }

  lemma ChosenPayloads(o: Outline, d: Envelope, accepts: Chunk -> bool)
    ensures var q := Chosen(o, d, accepts);
            && Payloads(q) <= PayloadsIn(Data(d)) && NoEnd(q)
            && (Payloads(q) == PayloadsIn(Data(d)) <==> KeepsDeltas(o, Data(d), accepts))
  {
    hide Payloads, ChoiceBodies, GoodChoice, NoEnd, ToolBodies, DeltasOf, Accepted, Fit;
    NothingYet();
    PayloadsOne(Extension);
    FitIs(accepts, o.sent, ChoiceOf(d));
    if |d.choices| == 1 {
      OneChoice(d);
      BadChoice(d.choices[0]);
      PartOfChoice(d.choices[0], Chosen(o, d, accepts));
    }
  }

  ghost predicate Leaves(c: Core, c': Core, o: Outline, q: seq<Body>) {
    if c'.ended
    then o.finish.Some? && c'.bodies == c.bodies + (q + [EndBody(o.finish.value, o.usage)]) && c'.finish.None?
         && c'.usage.None?
    else c'.bodies == c.bodies + q && c'.finish == o.finish && c'.usage == o.usage
  }

  /** What a data event leaves: its deltas up to where it was refused, and the end exactly
      when both finish and usage are known by then. */
  lemma DataGives(c: Core, o: Outline, d: Envelope, accepts: Chunk -> bool) returns (q: seq<Body>)
    requires !c.ended && Depicts(o, c)
    ensures Payloads(q) == Payloads(Chosen(o, d, accepts)) && NoEnd(q)
    ensures Leaves(c, ParsedData(c, d, accepts).0, Outlined(o, Data(d), accepts), q)
    ensures Depicts(Outlined(o, Data(d), accepts), ParsedData(c, d, accepts).0)
  {
    hide Pushed, Payloads, NoEnd, ParsedChoices, PayloadsIn, FirstFinish, EndBody, Accepted, ChoiceBodies, GoodChoice,
         Concluded, Chosen, ReadsFinish, Fit, ExtensionOf, EndFor;
    ChoicesGive(c, o, d, accepts);
    ChosenPayloads(o, d, accepts);
    q := Chosen(o, d, accepts);
    var (chosen, ok) := ParsedChoices(c, d, accepts);
    if ok && ReadsUsage(o, d, accepts) {
      var used := ParsedUsage(chosen, d).0;
      var more := ConcludedGives(used, d, accepts);
      MoreIsQuiet(q, more);
      assert c.bodies + q + more == c.bodies + (q + more);
      if used.finish.Some? {
        var end := [EndBody(used.finish.value, used.usage)];
        assert c.bodies + q + (more + end) == c.bodies + (q + more + end);
      }
      q := q + more;
    }
  }

  lemma ConcludedGives(c: Core, d: Envelope, accepts: Chunk -> bool) returns (more: seq<Body>)
    requires !c.ended
    ensures more == [] || more == [Extension]
    ensures var c' := Concluded(c, d, accepts).0;
            var tail := ExtensionOf(d) + EndFor(c.finish, c.usage);
            && (if c'.ended then c.finish.Some? && c'.bodies == c.bodies + (more + [EndBody(c.finish.value, c.usage)])
                                 && c'.finish.None? && c'.usage.None?
                else c'.bodies == c.bodies + more && c'.finish == c.finish && c'.usage == c.usage)
            && |c'.bodies| == |c.bodies| + Fit(accepts, |c.bodies|, tail)
            && (c'.ended <==> c.finish.Some? && c.usage.Some? && Accepted(accepts, |c.bodies|, tail))
  {
    hide Pushed, EndBody, Fit, Accepted;
    var extension, end := ExtensionOf(d), EndFor(c.finish, c.usage);
    ConcludedIs(c, d, accepts);
    PushedIs(c, extension, accepts);
    PushedFits(c, extension, accepts);
    FitIs(accepts, |c.bodies|, extension);
    FitJoins(accepts, |c.bodies|, extension, end);
    var (pushed, took) := Pushed(c, extension, accepts);
    more := pushed.bodies[|c.bodies|..];
    assert pushed.bodies == c.bodies + more && more <= extension;
    FitIs(accepts, |c.bodies| + |extension|, end);
    if took && c.finish.Some? && c.usage.Some? {
      var body := EndBody(c.finish.value, c.usage);
      PushedOne(pushed, body, accepts);
      OneAccepted(accepts, |pushed.bodies|, body);
      assert c.bodies + more + [body] == c.bodies + (more + [body]);
    }
  }

  lemma MoreIsQuiet(q: seq<Body>, more: seq<Body>)
    requires more == [] || more == [Extension]
    ensures Payloads(q + more) == Payloads(q) && (NoEnd(q) ==> NoEnd(q + more))
  {
    PayloadsJoin(q, more);
    PayloadsOne(Extension);
    NoEndJoins(q, more);
  }

  lemma EventGives(c: Core, o: Outline, e: Event, accepts: Chunk -> bool) returns (q: seq<Body>)
    requires Depicts(o, c)
    ensures Taken(c, e, accepts).0.bodies == c.bodies + q && Payloads(q) <= PayloadsIn(e)
    ensures Payloads(q) == PayloadsIn(e) <==> KeepsDeltas(o, e, accepts)
  {
    hide Pushed, Payloads, DeltasOf, ParsedData, NoEnd, Chosen, Outlined, ReadsChoice;
    var c' := Taken(c, e, accepts).0;
    q := [];
    PayloadsOne(HeartbeatBody);
    assert c.bodies + [] == c.bodies;
    match e
    case Heartbeat =>
      PushedOne(c, HeartbeatBody, accepts);
      q := if Taken(c, e, accepts).1 then [HeartbeatBody] else [];
    case Done =>
      if !c.ended && c.finish.Some? {
        var end := EndBody(c.finish.value, c.usage);
        PushedOne(c.(done := true), end, accepts);
        PayloadsOne(end);
        q := if Taken(c, e, accepts).1 then [end] else [];
      }
    case Data(d) =>
      if c.ended {
        EndedReadsNothing(o, d, accepts);
      } else {
        q := DataGives(c, o, d, accepts);
        ChosenPayloads(o, d, accepts);
        if c'.ended {
          var end := c'.bodies[|c'.bodies| - 1];
          PayloadsJoin(q, [end]);
          PayloadsOne(end);
          q := q + [end];
        }
      }
    case _ =>
  }

  lemma EndedReadsNothing(o: Outline, d: Envelope, accepts: Chunk -> bool)
    requires o.ended
    ensures !ReadsChoice(o, d, accepts)
  {
  }

  /** At any time: pending is what was noted first, or the end was made of it. */
  ghost predicate Outlines(o: Outline, c: Core) {
    && Depicts(o, c)
    && if c.ended then o.finish.Some? && EndsOnce(c.bodies, EndBody(o.finish.value, o.usage)) else NoEnd(c.bodies)
  }

  lemma {:induction false} OutlineHolds(input: seq<Event>, accepts: Chunk -> bool, n: nat)
    requires n <= |input|
    ensures Outlines(OutlineAt(input, accepts, n), CoreAt(input, accepts, n))
  {
    hide Outlines, Outlined, Taken;
    if n == 0 {
      OutlineBegins();
    } else {
      OutlineHolds(input, accepts, n - 1);
      OutlineStep(OutlineAt(input, accepts, n - 1), CoreAt(input, accepts, n - 1), input[n - 1], accepts);
    }
  }

  lemma OutlineBegins()
    ensures Outlines(NOTHING, FRESH)
  {
  }

  lemma OutlineStep(o: Outline, c: Core, e: Event, accepts: Chunk -> bool)
    requires Outlines(o, c)
    ensures Outlines(Outlined(o, e, accepts), Taken(c, e, accepts).0)
  {
    hide Pushed, ParsedData, EndsOnce, NoEnd, Payloads, Fit, Chosen, ReadsFinish, TailOf;
    match e
    case Heartbeat =>
      PushedOne(c, HeartbeatBody, accepts);
      FitIs(accepts, o.sent, [HeartbeatBody]);
      OneAccepted(accepts, o.sent, HeartbeatBody);
      AddHeartbeat(c.bodies);
    case Done =>
      if !c.ended && c.finish.Some? {
        PushedOne(c.(done := true), EndBody(c.finish.value, c.usage), accepts);
        EndNow(c.bodies, EndBody(c.finish.value, c.usage));
      }
    case Data(d) =>
      if c.ended {
        EndedStays(o, d, accepts);
      } else {
        var q := DataGives(c, o, d, accepts);
        NoEndJoins(c.bodies, q);
        var c' := ParsedData(c, d, accepts).0;
        if c'.ended {
          AddEnd(c.bodies, q, c'.bodies[|c'.bodies| - 1]);
        }
      }
    case _ =>
  }

  lemma EndedStays(o: Outline, d: Envelope, accepts: Chunk -> bool)
    requires o.ended
    ensures Outlined(o, Data(d), accepts) == o
  {
  }

  lemma EqualParts(a: seq<Body>, b: seq<Body>, x: seq<Body>, y: seq<Body>)
    requires |a| <= |x| && b <= y
    ensures a + b == x + y <==> a == x && b == y
  {
    if a + b == x + y {
      assert |a| == |x| && |b| == |y|;
      assert a == (a + b)[..|a|] && x == (x + y)[..|x|];
    }
  }

  /** All deltas are there exactly if no event lost one. */
  lemma {:induction false} PayloadsIff(input: seq<Event>, accepts: Chunk -> bool, n: nat)
    requires n <= |input|
    ensures |Payloads(CoreAt(input, accepts, n).bodies)| <= |PayloadsOf(input[..n])|
    ensures Payloads(CoreAt(input, accepts, n).bodies) == PayloadsOf(input[..n])
       <==> forall i :: 0 <= i < n ==> KeepsDeltas(OutlineAt(input, accepts, i), input[i], accepts)
  {
    hide Taken, Payloads, PayloadsOf, PayloadsIn, CoreAt, KeepsDeltas, BodiesOf, BodiesAt, FinishIn, UsageIn, OutlineAt,
         EndsOnce, NoEnd;
    if n == 0 {
      assert input[..0] == [];
      NothingYet();
      PayloadsOne(HeartbeatBody);
      assert CoreAt(input, accepts, 0).bodies == [] by { FreshStage(input, accepts); }
    } else {
      var k := n - 1;
      var c, e := CoreAt(input, accepts, k), input[k];
      PayloadsIff(input, accepts, k);
      CoreStep(input, accepts, k);
      OutlineHolds(input, accepts, k);
      var q := EventGives(c, OutlineAt(input, accepts, k), e, accepts);
      PayloadsJoin(c.bodies, q);
      assert input[..n] == input[..k] + [e];
      SeenAppend(input[..k], e);
      EqualParts(Payloads(c.bodies), Payloads(q), PayloadsOf(input[..k]), PayloadsIn(e));
    }
  }

  function Chunks(bodies: seq<Body>): seq<Chunk> {
    seq(|bodies|, i requires 0 <= i < |bodies| => Chunk(i, bodies[i]))
  }

  lemma EndIsUnique(bodies: seq<Body>, x: Body, y: Body)
    requires EndsOnce(bodies, x) && EndsOnce(bodies, y)
    ensures x == y
  {
    var i :| EndsAt(bodies, i, x);
    var j :| EndsAt(bodies, j, y);
    NoneBefore(bodies, i, x);
    NoneBefore(bodies, j, y);
  }

  lemma NoneBefore(bodies: seq<Body>, k: int, end: Body)
    requires EndsAt(bodies, k, end)
    ensures 0 <= k < |bodies| && bodies[k] == end && end.MessageEnd? && forall i :: 0 <= i < k ==>
              !bodies[i].MessageEnd?
  {
    forall i | 0 <= i < k ensures !bodies[i].MessageEnd? {
      assert bodies[..k][i] == bodies[i];
    }
  }

  /** A call that ends the stream, after any errors before it: the chunks delivered are
      faithful to the provider if and only if nothing was lost by the events refused. */
  lemma EofIsFaithfulIff(r: Reader, input: seq<Event>, accepts: Chunk -> bool)
    requires Reachable(r, input, accepts) && NextOf(r, input, accepts).1.Eof?
    ensures var end := NextOf(r, input, accepts).0;
            && end.position <= |input| && end.delivered == |end.core.bodies| && end.core.done
            && (FaithfulRun(Chunks(end.core.bodies), input[..end.position]) <==>
                  NothingLost(input, accepts, end.position))
  {
    hide Taken, Payloads, PayloadsOf, CoreAt, NextOf, EndsOnce, KeepsDeltas, OutlineAt, NoEnd;
    NextIs(r, input, accepts);
    EofIs(r, input, accepts);
    var end := NextOf(r, input, accepts).0;
    var n := end.position;
    assert Bodies(Chunks(end.core.bodies)) == end.core.bodies;
    PayloadsIff(input, accepts, n);
    OutlineHolds(input, accepts, n);
    if FaithfulRun(Chunks(end.core.bodies), input[..n]) {
      var sent := EndBody(FinishIn(input[..n]).value, UsageIn(input[..n]));
      if !end.core.ended {
        EndsOnceEnds(end.core.bodies, sent);
        assert false;
      }
      var o := OutlineAt(input, accepts, n);
      EndIsUnique(end.core.bodies, sent, EndBody(o.finish.value, o.usage));
    }
  }

  lemma EndsOnceEnds(bodies: seq<Body>, end: Body)
    requires EndsOnce(bodies, end)
    ensures !NoEnd(bodies)
  {
    var k :| EndsAt(bodies, k, end);
    assert bodies[k].MessageEnd?;
  }

  lemma {:induction false} EofIs(r: Reader, input: seq<Event>, accepts: Chunk -> bool)
    requires r.position <= |input| && NextOf(r, input, accepts).1.Eof? && r.delivered <= |r.core.bodies|
    ensures var end := NextOf(r, input, accepts).0;
            end.delivered == |end.core.bodies| && end.core.done
    decreases |input| - r.position
  {
    hide Taken;
    if r.delivered == |r.core.bodies| && !r.core.done && r.position < |input| {
      TakenGrows(r.core, input[r.position], accepts);
      var (core, ok) := Taken(r.core, input[r.position], accepts);
      if ok {
        EofIs(r.(position := r.position + 1, core := core), input, accepts);
      }
    }
  }

  // ---- which refused event loses something ------------------------------------------------

  /** A delta of the event is not queued, or it brings the first finish and is refused
      before that is noted, or the first usage. */
  ghost predicate Loses(o: Outline, e: Event, accepts: Chunk -> bool) {
    || !KeepsDeltas(o, e, accepts)
    || (FinishAt(e).Some? && o.finish.None? && !(e.Data? && ReadsFinish(o, e.envelope, accepts)))
    || (UsageAt(e).Some? && o.usage.None? && !(e.Data? && ReadsUsage(o, e.envelope, accepts)))
  }

  ghost predicate NoneLoses(input: seq<Event>, accepts: Chunk -> bool, n: nat)
    requires n <= |input|
  {
    forall i :: 0 <= i < n ==> !Loses(OutlineAt(input, accepts, i), input[i], accepts)
  }

  /** Both events report a finish, or both a usage. */
  predicate ReportsAgain(x: Event, y: Event) {
    (FinishAt(x).Some? && FinishAt(y).Some?) || (UsageAt(x).Some? && UsageAt(y).Some?)
  }

  /** The provider reports one finish and one usage at most. */
  ghost predicate ReportsOnce(events: seq<Event>) {
    forall i, j :: 0 <= i < j < |events| ==> !ReportsAgain(events[i], events[j])
  }

  /** What is noted after one more event. */
  lemma NotedBy(o: Outline, e: Event, accepts: Chunk -> bool)
    ensures var o' := Outlined(o, e, accepts);
            && o'.finish == (if o.finish.None? && e.Data? && ReadsFinish(o, e.envelope, accepts) then FinishAt(e)
                             else o.finish)
            && o'.usage == (if o.usage.None? && e.Data? && ReadsUsage(o, e.envelope, accepts) then UsageAt(e)
                            else o.usage)
  {
  }

  lemma OutlineNext(input: seq<Event>, accepts: Chunk -> bool, k: nat)
    requires k < |input|
    ensures OutlineAt(input, accepts, k + 1) == Outlined(OutlineAt(input, accepts, k), input[k], accepts)
    ensures OutlineAt(input, accepts, 0) == NOTHING
  {
  }

  lemma {:induction false} NotedIsFirst(input: seq<Event>, accepts: Chunk -> bool, n: nat)
    requires n <= |input| && NoneLoses(input, accepts, n)
    ensures OutlineAt(input, accepts, n).finish == FinishIn(input[..n])
    ensures OutlineAt(input, accepts, n).usage == UsageIn(input[..n])
  {
    hide Outlined, OutlineAt, FinishIn, UsageIn, KeepsDeltas, FinishAt, UsageAt, ReadsFinish, ReadsUsage, PayloadsOf,
         BodiesOf;
    if n == 0 {
      assert input[..0] == [];
      NothingSeen(input, accepts);
    } else {
      var k := n - 1;
      NotedIsFirst(input, accepts, k);
      OutlineNext(input, accepts, k);
      NotedBy(OutlineAt(input, accepts, k), input[k], accepts);
      assert input[..n] == input[..k] + [input[k]];
      SeenAppend(input[..k], input[k]);
      assert !Loses(OutlineAt(input, accepts, k), input[k], accepts);
    }
  }

  lemma NothingSeen(input: seq<Event>, accepts: Chunk -> bool)
    ensures FinishIn([]) == None && UsageIn([]) == None && OutlineAt(input, accepts, 0) == NOTHING
  {
  }

  /** If the provider reports once, what was lost is never noted. */
  lemma {:induction false} LostForGood(input: seq<Event>, accepts: Chunk -> bool, k: nat, n: nat)
    requires k < n <= |input| && ReportsOnce(input[..n])
    ensures var o := OutlineAt(input, accepts, k);
            && (FinishAt(input[k]).Some? && o.finish.None?
                && !(input[k].Data? && ReadsFinish(o, input[k].envelope, accepts)) ==>
                  OutlineAt(input, accepts, n).finish.None? && FinishIn(input[..n]).Some?)
            && (UsageAt(input[k]).Some? && o.usage.None?
                && !(input[k].Data? && ReadsUsage(o, input[k].envelope, accepts)) ==>
                  OutlineAt(input, accepts, n).usage.None? && UsageIn(input[..n]).Some?)
    decreases n
  {
    hide Outlined, OutlineAt, FinishIn, UsageIn, FinishAt, UsageAt, ReadsFinish, ReadsUsage, PayloadsOf, BodiesOf;
    var m := n - 1;
    OutlineNext(input, accepts, m);
    NotedBy(OutlineAt(input, accepts, m), input[m], accepts);
    assert input[..n] == input[..m] + [input[m]];
    SeenAppend(input[..m], input[m]);
    if k < m {
      ReportsOnceBefore(input, k, m);
      LostForGood(input, accepts, k, m);
    }
  }

  lemma ReportsOnceBefore(input: seq<Event>, k: nat, m: nat)
    requires k < m < |input| && ReportsOnce(input[..m + 1])
    ensures ReportsOnce(input[..m])
    ensures !ReportsAgain(input[k], input[m])
  {
    hide ReportsAgain;
    var x, y := input[..m + 1], input[..m];
    assert x[k] == input[k] && x[m] == input[m];
    forall i, j | 0 <= i < j < |y| ensures !ReportsAgain(y[i], y[j]) {
      assert y[i] == x[i] && y[j] == x[j];
    }
  }

  /** Once the end was sent: if no event loses anything, nothing is lost; and only so, if
      the provider reports its finish and its usage once. */
  lemma LostIffOneLoses(input: seq<Event>, accepts: Chunk -> bool, n: nat)
    requires n <= |input| && OutlineAt(input, accepts, n).ended
    ensures NoneLoses(input, accepts, n) ==> NothingLost(input, accepts, n)
    ensures ReportsOnce(input[..n]) ==> (NothingLost(input, accepts, n) <==> NoneLoses(input, accepts, n))
  {
    hide OutlineAt, FinishIn, UsageIn, KeepsDeltas, FinishAt, UsageAt, ReadsFinish, ReadsUsage, ReportsOnce;
    if NoneLoses(input, accepts, n) {
      NotedIsFirst(input, accepts, n);
      forall i | 0 <= i < n ensures KeepsDeltas(OutlineAt(input, accepts, i), input[i], accepts) {
        assert !Loses(OutlineAt(input, accepts, i), input[i], accepts);
      }
    }
    if ReportsOnce(input[..n]) && NothingLost(input, accepts, n) {
      forall i | 0 <= i < n ensures !Loses(OutlineAt(input, accepts, i), input[i], accepts) {
        LostForGood(input, accepts, i, n);
      }
    }
  }

  /** A taken event loses nothing. */
  lemma TakenLosesNothing(input: seq<Event>, accepts: Chunk -> bool, k: nat)
    requires k < |input| && Takes(input, accepts, k)
    ensures !Loses(OutlineAt(input, accepts, k), input[k], accepts)
  {
    hide OutlineAt, CoreAt, ParsedData, Pushed, DeltasOf, FirstFinish, ReadsFinish, EndsOnce, NoEnd;
    var o, c, e := OutlineAt(input, accepts, k), CoreAt(input, accepts, k), input[k];
    OutlineHolds(input, accepts, k);
    if e.Data? {
      TakenIsRead(o, c, e.envelope, accepts);
    }
  }

  lemma TakenIsRead(o: Outline, c: Core, d: Envelope, accepts: Chunk -> bool)
    requires Depicts(o, c) && !c.ended && ParsedData(c, d, accepts).1
    ensures ReadsUsage(o, d, accepts) && KeepsDeltas(o, Data(d), accepts)
  {
    hide Pushed, ParsedChoices, Concluded, FirstFinish, Accepted, GoodChoice;
    ChoicesGive(c, o, d, accepts);
    if |d.choices| == 0 {
      OneChoice(d);
    }
  }

  /** The event carries nothing that a run has to carry. */
  predicate Blank(e: Event) {
    !e.Done? && PayloadsIn(e) == [] && FinishAt(e).None? && UsageAt(e).None?
  }

  /** Refusing events that carry nothing loses nothing. */
  lemma BlankErrorsLoseNothing(input: seq<Event>, accepts: Chunk -> bool, n: nat)
    requires n <= |input| && CoreAt(input, accepts, n).ended
    requires forall i :: 0 <= i < n ==> Takes(input, accepts, i) || Blank(input[i])
    ensures NothingLost(input, accepts, n)
  {
    hide CoreAt, OutlineAt, Takes, PayloadsIn, FinishAt, UsageAt, NothingLost, EndsOnce, NoEnd;
    forall i | 0 <= i < n ensures !Loses(OutlineAt(input, accepts, i), input[i], accepts) {
      if Takes(input, accepts, i) {
        TakenLosesNothing(input, accepts, i);
      }
    }
    OutlineHolds(input, accepts, n);
    LostIffOneLoses(input, accepts, n);
  }

  /** Several choices in one event: all their deltas are lost, and the run with them. */
  lemma SeveralChoicesLose(r: Reader, input: seq<Event>, accepts: Chunk -> bool, k: nat)
    requires Reachable(r, input, accepts) && NextOf(r, input, accepts).1.Eof?
    requires k < |input| && k < NextOf(r, input, accepts).0.position
    requires input[k].Data? && |input[k].envelope.choices| > 1 && PayloadsIn(input[k]) != []
    ensures var end := NextOf(r, input, accepts).0;
            end.position <= |input| && !FaithfulRun(Chunks(end.core.bodies), input[..end.position])
  {
    hide NextOf, OutlineAt, FaithfulRun, PayloadsIn, FinishIn, UsageIn;
    EofIsFaithfulIff(r, input, accepts);
    assert !KeepsDeltas(OutlineAt(input, accepts, k), input[k], accepts);
  }

  const FIRST_OF_TWO := Choice(0, false, NoRole, 7, [], None)
  const SECOND_OF_TWO := Choice(1, false, NoRole, 8, [], None)
  const FINISHING := Choice(0, false, NoRole, NO_TEXT, [], Some(1))
  const TWO_CHOICES := Data(Envelope(false, [FIRST_OF_TWO, SECOND_OF_TWO], NoUsage, false))
  const FINISHED := Data(Envelope(false, [FINISHING], NoUsage, false))

  /** Such a stream: an error, the end, end of file, and no word of the two choices. */
  lemma TwoChoicesLose(accepts: Chunk -> bool)
    requires forall c :: accepts(c)
    ensures var input := [TWO_CHOICES, FINISHED, Done];
            var (failed, first) := NextOf(BEGIN, input, accepts);
            && first.Fault? && failed.position <= 3
            && var (ended, second) := NextOf(failed, input, accepts);
            && second == Item(Chunk(0, MessageEnd(0, 1, None, Missing))) && ended.position <= 3
            && NextOf(ended, input, accepts) == (ended, Eof) && !FaithfulRun(Chunks(ended.core.bodies), input)
  {
    hide FaithfulRun;
    var input := [TWO_CHOICES, FINISHED, Done];
    assert Taken(FRESH, TWO_CHOICES, accepts) == (FRESH, false);
    var pending := FRESH.(finish := Some(Finish(0, 1)));
    assert Taken(FRESH, FINISHED, accepts) == (pending, true);
    var end := MessageEnd(0, 1, None, Missing);
    assert Taken(pending, Done, accepts) == (Core([end], None, None, true, true), true) by {
      assert [] + [end] == [end] && accepts(Chunk(0, end));
      PushedOne(pending.(done := true), end, accepts);
    }
    var failed := Reader(1, 0, FRESH);
    assert NextOf(BEGIN, input, accepts) == (failed, Fault);
    var ended := Reader(3, 1, Core([end], None, None, true, true));
    NextStep(Reader(2, 0, pending), input, accepts);
    NextStep(failed, input, accepts);
    assert NextOf(failed, input, accepts) == (ended, Item(Chunk(0, end)));
    assert Reachable(BEGIN, input, accepts);
    NextIs(BEGIN, input, accepts);
    NextIs(failed, input, accepts);
    assert PayloadsIn(TWO_CHOICES)[0] == ContentDelta(0, 7);
    assert input[..3] == input;
    SeveralChoicesLose(ended, input, accepts, 0);
  }

  lemma NextStep(r: Reader, input: seq<Event>, accepts: Chunk -> bool)
    requires r.position < |input| && r.delivered == |r.core.bodies| && !r.core.done
    ensures var (core, ok) := Taken(r.core, input[r.position], accepts);
            var r' := Reader(r.position + 1, r.delivered, core);
            NextOf(r, input, accepts) == if ok then NextOf(r', input, accepts) else (r', Fault)
  {
    hide Taken;
  }

  lemma TakesIs(input: seq<Event>, accepts: Chunk -> bool, k: nat)
    requires k < |input|
    ensures Takes(input, accepts, k) <==> Taken(CoreAt(input, accepts, k), input[k], accepts).1
  {
  }

  /** A done marker without a finish: the call fails, the next one ends the stream, and
      what was delivered is no faithful run. */
  lemma DoneWithoutFinish(r: Reader, input: seq<Event>, accepts: Chunk -> bool)
    requires Reachable(r, input, accepts) && r.delivered == |r.core.bodies| && !r.core.done && r.position < |input|
    requires input[r.position].Done? && !r.core.ended && r.core.finish.None?
    ensures var (failed, first) := NextOf(r, input, accepts);
            && first.Fault? && failed.position == r.position + 1 && NextOf(failed, input, accepts) == (failed, Eof)
            && !FaithfulRun(Chunks(failed.core.bodies), input[..failed.position])
  {
    hide Taken, FaithfulRun, OutlineAt, CoreAt, KeepsDeltas, EndsOnce, NoEnd, Fails, Ends;
    DoneTakes(r.core, accepts);
    var failed := NextOf(r, input, accepts).0;
    NextIs(r, input, accepts);
    EofIsFaithfulIff(failed, input, accepts);
    OutlineHolds(input, accepts, failed.position);
  }

  lemma DoneAlone(accepts: Chunk -> bool)
    ensures var (failed, first) := NextOf(BEGIN, [Done], accepts);
            first.Fault? && failed.position == 1 && NextOf(failed, [Done], accepts) == (failed, Eof)
            && !FaithfulRun([], [Done])
  {
    assert Reachable(BEGIN, [Done], accepts);
    DoneWithoutFinish(BEGIN, [Done], accepts);
    assert NextOf(BEGIN, [Done], accepts).0.core.bodies == [] by { DoneTakes(FRESH, accepts); }
    assert [Done][..1] == [Done] && Chunks([]) == [];
  }

  // ---- calls ---------------------------------------------------------------------------------

  lemma QueueMoves(r: Reader, input: seq<Event>, accepts: Chunk -> bool)
    requires Reachable(r, input, accepts) && r.delivered < |r.core.bodies|
    ensures Reachable(r.(delivered := r.delivered + 1), input, accepts)
  {
  }

  lemma NothingTaken(input: seq<Event>, accepts: Chunk -> bool)
    ensures TakesAll(input, accepts, 0)
  {
  }

  /** A call that does not fail took only events without an error, and keeps what was
      delivered. */
  lemma {:induction false} CallIsClean(r: Reader, input: seq<Event>, accepts: Chunk -> bool)
    requires Reachable(r, input, accepts) && TakesAll(input, accepts, r.position)
    ensures var (r', item) := NextOf(r, input, accepts);
            && r'.position <= |input|
            && (!item.Fault? ==> TakesAll(input, accepts, r'.position))
            && r.core.bodies <= r'.core.bodies && (!item.Item? ==> r'.delivered == r.delivered)
            && (item.Item? ==>
                  r.delivered < |r'.core.bodies| && item.chunk == Chunk(r.delivered, r'.core.bodies[r.delivered]))
    decreases |input| - r.position
  {
    hide Taken;
    if r.delivered == |r.core.bodies| && !r.core.done && r.position < |input| {
      TakenGrows(r.core, input[r.position], accepts);
      ReachableStep(r, input, accepts);
      var q := EventGives(r.core, OutlineOf(r.core), input[r.position], accepts);
      var (core, ok) := Taken(r.core, input[r.position], accepts);
      if ok {
        CallIsClean(Reader(r.position + 1, r.delivered, core), input, accepts);
      }
    }
  }

  lemma FaultIsUnclean(r: Reader, input: seq<Event>, accepts: Chunk -> bool)
    requires Reachable(r, input, accepts) && TakesAll(input, accepts, r.position) && NextOf(r, input, accepts).1.Fault?
    ensures !(ReadsToEnd(input, START) && Accepted(accepts, 0, BodiesOf(UpToDone(input))))
  {
    hide Taken, CoreAt, Accepted, BodiesOf, ReadsToEnd, Takes;
    NextIs(r, input, accepts);
    FaultMeets(r, input, accepts);
    var q: nat :| Silent(input, accepts, r.position, q) && BreaksAt(input, accepts, q);
    if ReadsToEnd(input, START) && Accepted(accepts, 0, BodiesOf(UpToDone(input))) {
      CleanGoesOn(input, accepts, r.position, q);
    }
  }

  /** In a stream that can be read to its end, silence is followed by another taken event. */
  lemma CleanGoesOn(input: seq<Event>, accepts: Chunk -> bool, p: nat, q: nat)
    requires ReadsToEnd(input, START) && Accepted(accepts, 0, BodiesOf(UpToDone(input)))
    requires Silent(input, accepts, p, q) && DoneLast(input[..p], false)
    ensures q < |input| && Takes(input, accepts, q)
  {
    hide CoreAt, Accepted, BodiesOf, ReadsToEnd, Takes;
    UpToDoneIs(input, START);
    var m := |UpToDone(input)|;
    CleanUpTo(input, accepts, m);
    DoneIsAhead(input, p, m - 1);
    SilentStops(input, accepts, p, q, m - 1);
  }

  lemma SilentStops(input: seq<Event>, accepts: Chunk -> bool, p: nat, q: nat, k: nat)
    requires Silent(input, accepts, p, q) && p <= k < |input| && input[k].Done?
    ensures q <= k
  {
    hide CoreAt, Takes;
  }

  lemma DoneIsAhead(input: seq<Event>, p: nat, k: nat)
    requires p <= |input| && k < |input| && DoneLast(input[..p], false) && input[k].Done?
    ensures p <= k
  {
    forall i | 0 <= i < p ensures !input[i].Done? {
      assert input[..p][i] == input[i];
    }
  }

  lemma FaultMeets(r: Reader, input: seq<Event>, accepts: Chunk -> bool)
    requires r.position <= |input| && r.delivered <= |r.core.bodies| && NextOf(r, input, accepts).1.Fault?
    ensures r.delivered == |r.core.bodies| && !r.core.done
  {
    hide Taken;
  }

  lemma EofIsClean(r: Reader, input: seq<Event>, accepts: Chunk -> bool)
    requires Reachable(r, input, accepts) && TakesAll(input, accepts, r.position) && NextOf(r, input, accepts).1.Eof?
    ensures var end := NextOf(r, input, accepts).0;
            && end.position <= |input| && FaithfulRun(Chunks(end.core.bodies), input[..end.position])
            && input[..end.position] == UpToDone(input) && end.core.bodies == BodiesOf(UpToDone(input))
            && Bodies(Chunks(end.core.bodies)) == end.core.bodies
            && ReadsToEnd(input, START) && Accepted(accepts, 0, BodiesOf(UpToDone(input)))
  {
    hide Taken, CoreAt, Accepted, BodiesOf, ReadsToEnd, Takes, Payloads, PayloadsOf, EndsOnce, CleanSoFar, NextOf,
         FinishIn, UsageIn;
    NextIs(r, input, accepts);
    CallIsClean(r, input, accepts);
    EofIs(r, input, accepts);
    var end := NextOf(r, input, accepts).0;
    var n := end.position;
    assert Bodies(Chunks(end.core.bodies)) == end.core.bodies;
    assert input[..n][n - 1] == input[n - 1];
    forall i | 0 <= i < n - 1 ensures !input[i].Done? {
      assert input[..n][i] == input[i];
    }
    CleanIff(input, accepts, n);
    CleanAfter(input, accepts, n);
    CleanBodies(input, accepts, n);
    CleanIsFaithful(input, accepts, n);
    DoneEnds(input, accepts, n - 1);
  }

  lemma DoneEnds(input: seq<Event>, accepts: Chunk -> bool, k: nat)
    requires k < |input| && input[k].Done? && Takes(input, accepts, k)
    ensures CoreAt(input, accepts, k + 1).ended
  {
    hide Pushed;
  }
}
