/** The provider stream normalizer: decoded server-sent events in, numbered
    normalized chunks out, with one terminal chunk held back until its usage is
    known or the provider says it is done. What reading does, event by event, and
    exactly when a call fails or ends. */
module StreamModel {
  import opened Wrappers

  type Text = nat

  // The empty string.
  const NO_TEXT: Text := 0

  datatype Role = NoRole | Assistant | OtherRole

  /** A tool call; `bad` stands for every one the parser refuses. */
  datatype Tool = Tool(text: Text, bad: bool)

  /** One choice as the provider sent it; `broken` stands for every payload the parser refuses. */
  datatype Choice = Choice(index: int, broken: bool, role: Role, content: Text, tools: seq<Tool>, finish: Option<Text>)

  datatype UsageField = NoUsage | UsageOf(usage: Text, complete: bool, bad: bool)

  /** One envelope as the provider sent it; `broken` stands for bad JSON, identity or moderation. */
  datatype Envelope = Envelope(broken: bool, choices: seq<Choice>, usage: UsageField, unknownFields: bool)

  /** A block of the stream; the decoder refuses a broken one, whatever data it holds. */
  datatype Event = Heartbeat | Done | EmptyData | Data(envelope: Envelope) | Broken(held: Envelope)

  datatype UsageStatus = Missing | Partial | Present

  datatype Body =
    | HeartbeatBody
    | MessageStart(choice: int)
    | ContentDelta(choice: int, text: Text)
    | ToolDelta(choice: int, text: Text)
    | Extension
    | MessageEnd(choice: int, reason: Text, usage: Option<Text>, status: UsageStatus)

  datatype Chunk = Chunk(sequence: nat, body: Body)

  datatype Finish = Finish(choice: int, reason: Text)

  datatype Item = Item(chunk: Chunk) | Eof | Fault

  // ---- what a run should carry --------------------------------------------------

  predicate IsPayload(b: Body) { b.ContentDelta? || b.ToolDelta? }

  function Payloads(bodies: seq<Body>): seq<Body> {
    if bodies == [] then []
    else
      var last := bodies[|bodies| - 1];
      Payloads(bodies[..|bodies| - 1]) + if IsPayload(last) then [last] else []
  }

  function ToolBodies(choice: int, tools: seq<Tool>): seq<Body> {
    if tools == [] then [] else [ToolDelta(choice, tools[0].text)] + ToolBodies(choice, tools[1..])
  }

  function ContentOf(c: Choice): (r: seq<Body>)
    ensures |r| <= 1 && (r == [] <==> c.content == NO_TEXT)
    ensures r != [] ==> r[0].ContentDelta? && r[0].choice == c.index && r[0].text == c.content
  {
    if c.content != NO_TEXT then [ContentDelta(c.index, c.content)] else []
  }

  /** The content and tool deltas of any number of choices, in their order. */
  function DeltasOf(choices: seq<Choice>): seq<Body> {
    if choices == [] then []
    else
      (if choices[0].content == NO_TEXT then [] else [ContentDelta(choices[0].index, choices[0].content)])
      + ToolBodies(choices[0].index, choices[0].tools) + DeltasOf(choices[1..])
  }

  /** The content and tool deltas that one provider event holds, in its order. */
  function PayloadsIn(e: Event): seq<Body> {
    match e
    case Data(d) => DeltasOf(d.choices)
    case Broken(d) => DeltasOf(d.choices)
    case _ => []
  }

  function PayloadsOf(events: seq<Event>): seq<Body> {
    if events == [] then [] else PayloadsOf(events[..|events| - 1]) + PayloadsIn(events[|events| - 1])
  }

  /** The first usage that the provider reported, and whether it was complete. */
  function UsageIn(events: seq<Event>): Option<(Text, bool)> {
    if events == [] then None
    else
      var earlier := UsageIn(events[..|events| - 1]);
      if earlier.Some? then earlier else UsageAt(events[|events| - 1])
  }

  function UsageAt(e: Event): Option<(Text, bool)> {
    match e
    case Data(d) => Reported(d.usage)
    case Broken(d) => Reported(d.usage)
    case _ => None
  }

  function Reported(u: UsageField): Option<(Text, bool)> {
    if u.UsageOf? then Some((u.usage, u.complete)) else None
  }

  /** The first finish that the provider reported. */
  function FinishIn(events: seq<Event>): Option<Finish> {
    if events == [] then None
    else
      var earlier := FinishIn(events[..|events| - 1]);
      if earlier.Some? then earlier else FinishAt(events[|events| - 1])
  }

  function FinishAt(e: Event): Option<Finish> {
    match e
    case Data(d) => FirstFinish(d.choices)
    case Broken(d) => FirstFinish(d.choices)
    case _ => None
  }

  function FirstFinish(choices: seq<Choice>): Option<Finish> {
    if choices == [] then None
    else if choices[0].finish.Some? then Some(Finish(choices[0].index, choices[0].finish.value))
    else FirstFinish(choices[1..])
  }

  function FinishOf(c: Choice): Option<Finish> {
    if c.finish.Some? then Some(Finish(c.index, c.finish.value)) else None
  }

  /** The terminal chunk for a finish and the usage known by then. */
  function EndBody(f: Finish, u: Option<(Text, bool)>): (r: Body)
    ensures r.MessageEnd? && r.choice == f.choice && r.reason == f.reason
    ensures r.status.Missing? <==> u.None?
    ensures r.usage.None? <==> u.None?
    ensures u.Some? ==> r.usage.value == u.value.0 && (r.status.Present? <==> u.value.1)
  {
    MessageEnd(f.choice, f.reason, if u.Some? then Some(u.value.0) else None,
               if u.None? then Missing else if u.value.1 then Present else Partial)
  }

  /** Numbered from zero. */
  ghost predicate Numbered(chunks: seq<Chunk>) {
    forall i :: 0 <= i < |chunks| ==> chunks[i].sequence == i
  }

  function Bodies(chunks: seq<Chunk>): seq<Body> {
    seq(|chunks|, i requires 0 <= i < |chunks| => chunks[i].body)
  }

  ghost predicate NoEnd(bodies: seq<Body>) {
    forall i :: 0 <= i < |bodies| ==> !bodies[i].MessageEnd?
  }

  /** Exactly one end, followed by heartbeats alone. */
  ghost predicate EndsOnce(bodies: seq<Body>, end: Body) {
    exists k :: EndsAt(bodies, k, end)
  }

  ghost predicate EndsAt(bodies: seq<Body>, k: int, end: Body) {
    && 0 <= k < |bodies| && bodies[k] == end && end.MessageEnd? && NoEnd(bodies[..k])
    && forall i :: k < i < |bodies| ==> bodies[i] == HeartbeatBody
  }

  /** Read up to and including the provider's first done marker, or not to any. */
  ghost predicate DoneLast(events: seq<Event>, done: bool) {
    && (done ==> events != [] && events[|events| - 1].Done?)
    && forall i :: 0 <= i < (if done then |events| - 1 else |events|) ==> !events[i].Done?
  }

  /** A run to the end of the stream that carries all that the provider sent. */
  ghost predicate FaithfulRun(chunks: seq<Chunk>, events: seq<Event>) {
    && DoneLast(events, true) && Numbered(chunks)
    && Payloads(Bodies(chunks)) == PayloadsOf(events)
    && FinishIn(events).Some? && EndsOnce(Bodies(chunks), EndBody(FinishIn(events).value, UsageIn(events)))
  }

  /** Everything a well-formed choice turns into, up to the first tool call that is not. */
  function ChoiceBodies(c: Choice): seq<Body> {
    (if c.role == Assistant then [MessageStart(c.index)] else []) + ContentOf(c) + GoodTools(c.index, c.tools)
  }

  function GoodTools(choice: int, tools: seq<Tool>): (r: seq<Body>)
    ensures |r| <= |tools| && (|r| < |tools| ==> tools[|r|].bad)
    ensures forall i :: 0 <= i < |r| ==>
              r[i].ToolDelta? && r[i].choice == choice && r[i].text == tools[i].text && !tools[i].bad
  {
    if tools == [] || tools[0].bad then [] else [ToolDelta(choice, tools[0].text)] + GoodTools(choice, tools[1..])
  }

  /** What one event turns into, after the given ones. */
  function BodiesAt(before: seq<Event>, e: Event): seq<Body> {
    match e
    case Heartbeat => [HeartbeatBody]
    case Done => if FinishIn(before).Some? && UsageIn(before).None? then [EndBody(FinishIn(before).value, None)] else []
    case Data(d) =>
      var finish, usage := FinishIn(before + [e]), UsageIn(before + [e]);
      DataBodies(d) + if finish.Some? && usage.Some? then [EndBody(finish.value, usage)] else []
    case _ => []
  }

  function DataBodies(d: Envelope): seq<Body> {
    (if |d.choices| == 1 then ChoiceBodies(d.choices[0]) else []) + ExtensionOf(d)
  }

  /** The whole run of a well-formed stream. */
  function BodiesOf(events: seq<Event>): seq<Body> {
    if events == [] then []
    else BodiesOf(events[..|events| - 1]) + BodiesAt(events[..|events| - 1], events[|events| - 1])
  }

  /** Chunk validation accepts these bodies as chunks numbered from n. */
  ghost predicate Accepted(accepts: Chunk -> bool, n: nat, bodies: seq<Body>) {
    forall i :: 0 <= i < |bodies| ==> accepts(Chunk(n + i, bodies[i]))
  }

  // ---- which streams have a clean end ---------------------------------------------

  /** A finish or usage seen but not yet sent on, and whether the end was sent. */
  datatype Phase = Phase(finish: bool, usage: bool, ended: bool)

  const START := Phase(false, false, false)

  predicate GoodChoice(c: Choice): (r: bool)
    ensures r <==> !c.broken && (c.role.NoRole? || c.role.Assistant?) && |GoodTools(c.index, c.tools)| == |c.tools|
  {
    !c.broken && c.role != OtherRole && forall i :: 0 <= i < |c.tools| ==> !c.tools[i].bad
  }

  /** What a well-formed event makes of the phase; None for any other event. */
  function Advance(p: Phase, e: Event): Option<Phase> {
    match e
    case Heartbeat => Some(p)
    case Data(d) =>
      if p.ended || d.broken || |d.choices| > 1 || (d.usage.UsageOf? && d.usage.bad) then None
      else
        var finishes := |d.choices| == 1 && d.choices[0].finish.Some?;
        if (|d.choices| == 1 && !GoodChoice(d.choices[0])) || (finishes && p.finish) || (d.usage.UsageOf? && p.usage)
        then None
        else
          var finish, usage := p.finish || finishes, p.usage || d.usage.UsageOf?;
          Some(if finish && usage then Phase(false, false, true) else Phase(finish, usage, false))
    case Done => if p.ended || p.finish then Some(Phase(false, false, true)) else None
    case _ => None
  }

  /** The provider says it is done after well-formed events that include a finish. */
  predicate ReadsToEnd(events: seq<Event>, p: Phase)
    decreases |events|
  {
    && events != [] && Advance(p, events[0]).Some?
    && (events[0].Done? || ReadsToEnd(events[1..], Advance(p, events[0]).value))
  }

  /** The events up to the first done marker, or all. */
  function UpToDone(events: seq<Event>): seq<Event> {
    if events == [] then [] else if events[0].Done? then [events[0]] else [events[0]] + UpToDone(events[1..])
  }

  // ---- what reading does ------------------------------------------------------------

  /** All that was ever queued, and what is pending. */
  datatype Core = Core(bodies: seq<Body>, finish: Option<Finish>, usage: Option<(Text, bool)>, ended: bool, done: bool)
  {
    function Stage(): Phase {
      if ended then Phase(false, false, true) else Phase(finish.Some?, usage.Some?, false)
    }
  }

  const FRESH := Core([], None, None, false, false)

  /** Queue bodies until validation refuses one. */
  function Pushed(c: Core, bodies: seq<Body>, accepts: Chunk -> bool): (Core, bool)
    decreases |bodies|
  {
    if bodies == [] then (c, true)
    else if !accepts(Chunk(|c.bodies|, bodies[0])) then (c, false)
    else Pushed(c.(bodies := c.bodies + [bodies[0]]), bodies[1..], accepts)
  }

  function ParsedChoice(c: Core, choice: Choice, accepts: Chunk -> bool): (Core, bool) {
    if choice.broken || choice.role == OtherRole then (c, false)
    else
      var (pushed, ok) := Pushed(c, ChoiceBodies(choice), accepts);
      (pushed, ok && GoodChoice(choice))
  }

  function Terminated(c: Core, accepts: Chunk -> bool): (Core, bool)
    requires c.finish.Some?
  {
    var (pushed, ok) := Pushed(c, [EndBody(c.finish.value, c.usage)], accepts);
    if ok then (pushed.(finish := None, usage := None, ended := true), true) else (pushed, false)
  }

  /** The choice, then the finish it brings. */
  function ParsedChoices(c: Core, d: Envelope, accepts: Chunk -> bool): (Core, bool) {
    if d.broken || |d.choices| > 1 then (c, false)
    else if |d.choices| == 0 then (c, true)
    else
      var (parsed, ok) := ParsedChoice(c, d.choices[0], accepts);
      var finish := FinishOf(d.choices[0]);
      if !ok || (finish.Some? && c.finish.Some?) then (parsed, false)
      else (parsed.(finish := if finish.Some? then finish else c.finish), true)
  }

  function ParsedUsage(c: Core, d: Envelope): (Core, bool) {
    match d.usage
    case NoUsage => (c, true)
    case UsageOf(usage, complete, bad) =>
      if bad || c.usage.Some? then (c, false) else (c.(usage := Some((usage, complete))), true)
  }

  function ParsedData(c: Core, d: Envelope, accepts: Chunk -> bool): (Core, bool) {
    var (chosen, ok) := ParsedChoices(c, d, accepts);
    if !ok then (chosen, false)
    else
      var (used, fine) := ParsedUsage(chosen, d);
      if !fine then (used, false) else Concluded(used, d, accepts)
  }

  function ExtensionOf(d: Envelope): (r: seq<Body>)
    ensures |r| == (if d.unknownFields then 1 else 0) && (d.unknownFields ==> r[0].Extension?)
  {
    if d.unknownFields then [Extension] else []
  }

  /** The extension, and the end as soon as finish and usage are known. */
  function Concluded(c: Core, d: Envelope, accepts: Chunk -> bool): (Core, bool) {
    var (pushed, took) := Pushed(c, ExtensionOf(d), accepts);
    if !took then (pushed, false)
    else if pushed.finish.Some? && pushed.usage.Some? then Terminated(pushed, accepts)
    else (pushed, true)
  }

  /** Take one event; false for an error. */
  function Taken(c: Core, e: Event, accepts: Chunk -> bool): (Core, bool) {
    match e
    case Broken(_) => (c, false)
    case EmptyData => (c, false)
    case Heartbeat => Pushed(c, [HeartbeatBody], accepts)
    case Done =>
      var done := c.(done := true);
      if c.ended then (done, true) else if c.finish.None? then (done, false) else Terminated(done, accepts)
    case Data(d) => if c.ended then (c, false) else ParsedData(c, d, accepts)
  }

  /** After the first n events, whether or not some were refused. */
  function CoreAt(input: seq<Event>, accepts: Chunk -> bool, n: nat): Core
    requires n <= |input|
  {
    if n == 0 then FRESH else Taken(CoreAt(input, accepts, n - 1), input[n - 1], accepts).0
  }

  predicate Takes(input: seq<Event>, accepts: Chunk -> bool, n: nat)
    requires n < |input|
  {
    Taken(CoreAt(input, accepts, n), input[n], accepts).1
  }

  /** None of the first n events was refused. */
  ghost predicate TakesAll(input: seq<Event>, accepts: Chunk -> bool, n: nat)
    requires n <= |input|
  {
    forall i :: 0 <= i < n ==> Takes(input, accepts, i)
  }

  /** Where a reader is: how many events it took and how many chunks it delivered. */
  datatype Reader = Reader(position: nat, delivered: nat, core: Core)

  const BEGIN := Reader(0, 0, FRESH)

  ghost predicate Reachable(r: Reader, input: seq<Event>, accepts: Chunk -> bool) {
    && r.position <= |input| && r.delivered <= |r.core.bodies| && r.core == CoreAt(input, accepts, r.position)
    && DoneLast(input[..r.position], r.core.done)
  }

  /** One call: a queued chunk, the end, or as many events as it takes to an answer. */
  function NextOf(r: Reader, input: seq<Event>, accepts: Chunk -> bool): (Reader, Item)
    requires r.position <= |input|
    decreases |input| - r.position
  {
    if r.delivered < |r.core.bodies| then
      (r.(delivered := r.delivered + 1), Item(Chunk(r.delivered, r.core.bodies[r.delivered])))
    else if r.core.done then (r, Eof)
    else if r.position == |input| then (r, Fault)
    else
      var (core, ok) := Taken(r.core, input[r.position], accepts);
      var r' := r.(position := r.position + 1, core := core);
      if !ok then (r', Fault) else NextOf(r', input, accepts)
  }

  // ---- exactly when a call fails or ends ---------------------------------------------

  /** Events p to q - 1 were taken without an error and gave no chunk. */
  ghost predicate Silent(input: seq<Event>, accepts: Chunk -> bool, p: nat, q: nat) {
    && p <= q <= |input|
    && forall i :: p <= i < q ==>
         Takes(input, accepts, i) && CoreAt(input, accepts, i + 1).bodies == CoreAt(input, accepts, i).bodies
         && !input[i].Done?
  }

  lemma PushedGrows(c: Core, bodies: seq<Body>, accepts: Chunk -> bool)
    ensures |c.bodies| <= |Pushed(c, bodies, accepts).0.bodies|
    ensures Pushed(c, bodies, accepts).0 == c.(bodies := Pushed(c, bodies, accepts).0.bodies)
    ensures |Pushed(c, bodies, accepts).0.bodies| == |c.bodies| ==> Pushed(c, bodies, accepts).0 == c
    decreases |bodies|
  {
  }

  lemma ParsedGrows(c: Core, d: Envelope, accepts: Chunk -> bool)
    ensures var c' := ParsedData(c, d, accepts).0;
            |c.bodies| <= |c'.bodies| && (|c'.bodies| == |c.bodies| ==> c'.bodies == c.bodies) && c'.done == c.done
  {
    hide Pushed, ChoiceBodies;
    var chosen := ParsedChoices(c, d, accepts).0;
    if !d.broken && |d.choices| == 1 {
      PushedGrows(c, ChoiceBodies(d.choices[0]), accepts);
    }
    var used := ParsedUsage(chosen, d).0;
    PushedGrows(used, ExtensionOf(d), accepts);
    var pushed := Pushed(used, ExtensionOf(d), accepts).0;
    if pushed.finish.Some? {
      PushedGrows(pushed, [EndBody(pushed.finish.value, pushed.usage)], accepts);
    }
  }

  lemma TakenGrows(c: Core, e: Event, accepts: Chunk -> bool)
    ensures var c' := Taken(c, e, accepts).0;
            |c.bodies| <= |c'.bodies| && (|c'.bodies| == |c.bodies| ==> c'.bodies == c.bodies)
            && c'.done == (c.done || e.Done?)
  {
    hide Pushed, ParsedData;
    match e
    case Heartbeat => PushedGrows(c, [HeartbeatBody], accepts);
    case Done =>
      if !c.ended && c.finish.Some? {
        PushedGrows(c.(done := true), [EndBody(c.finish.value, c.usage)], accepts);
      }
    case Data(d) => ParsedGrows(c, d, accepts);
    case _ =>
  }

  lemma ReachableStep(r: Reader, input: seq<Event>, accepts: Chunk -> bool)
    requires Reachable(r, input, accepts) && !r.core.done && r.position < |input|
    ensures Reachable(Reader(r.position + 1, r.delivered, Taken(r.core, input[r.position], accepts).0), input, accepts)
  {
    hide Taken;
    TakenGrows(r.core, input[r.position], accepts);
    assert input[..r.position + 1][..r.position] == input[..r.position];
  }

  ghost predicate BreaksAt(input: seq<Event>, accepts: Chunk -> bool, q: nat) {
    q >= |input| || !Takes(input, accepts, q)
  }

  /** From event p on, after silent events, the input breaks off or an event is refused. */
  ghost predicate Fails(input: seq<Event>, accepts: Chunk -> bool, p: nat) {
    exists q: nat :: Silent(input, accepts, p, q) && BreaksAt(input, accepts, q)
  }

  /** From event p on, after silent events, the done marker comes after the end was sent. */
  ghost predicate Ends(input: seq<Event>, accepts: Chunk -> bool, p: nat) {
    exists q: nat :: Silent(input, accepts, p, q) && q < |input| && input[q].Done? && CoreAt(input, accepts, q).ended
  }

  ghost predicate SilentAt(input: seq<Event>, accepts: Chunk -> bool, p: nat)
    requires p < |input|
  {
    Takes(input, accepts, p) && CoreAt(input, accepts, p + 1).bodies == CoreAt(input, accepts, p).bodies
    && !input[p].Done?
  }

  lemma SilentSteps(input: seq<Event>, accepts: Chunk -> bool, p: nat, q: nat)
    requires p < |input|
    ensures Silent(input, accepts, p, p)
    ensures q != p ==>
              (Silent(input, accepts, p, q) <==> SilentAt(input, accepts, p) && Silent(input, accepts, p + 1, q))
  {
    hide CoreAt, Takes;
  }

  lemma AnswerSteps(input: seq<Event>, accepts: Chunk -> bool, p: nat)
    requires p <= |input|
    ensures Fails(input, accepts, p) <==>
              p == |input| || !Takes(input, accepts, p) || (SilentAt(input, accepts, p) && Fails(input, accepts, p + 1))
    ensures Ends(input, accepts, p) <==>
              p < |input| && ((input[p].Done? && CoreAt(input, accepts, p).ended)
                              || (SilentAt(input, accepts, p) && Ends(input, accepts, p + 1)))
  {
    hide CoreAt, Takes, SilentAt;
    if p == |input| {
      assert Silent(input, accepts, p, p) && BreaksAt(input, accepts, p);
    } else {
      SilentSteps(input, accepts, p, p);
      if Fails(input, accepts, p) {
        var q: nat :| Silent(input, accepts, p, q) && BreaksAt(input, accepts, q);
        SilentSteps(input, accepts, p, q);
      }
      if SilentAt(input, accepts, p) && Fails(input, accepts, p + 1) {
        var q: nat :| Silent(input, accepts, p + 1, q) && BreaksAt(input, accepts, q);
        SilentSteps(input, accepts, p, q);
        assert Silent(input, accepts, p, q);
      }
      if Ends(input, accepts, p) {
        var q: nat :| Silent(input, accepts, p, q) && q < |input| && input[q].Done? && CoreAt(input, accepts, q).ended;
        SilentSteps(input, accepts, p, q);
      }
      if SilentAt(input, accepts, p) && Ends(input, accepts, p + 1) {
        var q: nat :| Silent(input, accepts, p + 1, q) && q < |input| && input[q].Done?
        && CoreAt(input, accepts, q).ended;
        SilentSteps(input, accepts, p, q);
        assert Silent(input, accepts, p, q);
      }
    }
  }

  /** With nothing queued and the stream not done, a call fails exactly if, after silent
      events, the input breaks off or an event is refused; and it ends exactly if, after
      silent events, the done marker comes after the end was sent. */
  lemma {:induction false} NextIs(r: Reader, input: seq<Event>, accepts: Chunk -> bool)
    requires Reachable(r, input, accepts)
    ensures Reachable(NextOf(r, input, accepts).0, input, accepts)
    ensures r.delivered == |r.core.bodies| && !r.core.done ==>
              && (NextOf(r, input, accepts).1.Fault? <==> Fails(input, accepts, r.position))
              && (NextOf(r, input, accepts).1.Eof? <==> Ends(input, accepts, r.position))
    decreases |input| - r.position
  {
    hide Taken, Fails, Ends;
    var p := r.position;
    if r.delivered == |r.core.bodies| && !r.core.done {
      AnswerSteps(input, accepts, p);
      if p < |input| {
        TakenGrows(r.core, input[p], accepts);
        DoneTakes(r.core, accepts);
        ReachableStep(r, input, accepts);
        if Takes(input, accepts, p) {
          NextIs(Reader(p + 1, r.delivered, Taken(r.core, input[p], accepts).0), input, accepts);
        }
      }
    }
  }

  lemma DoneTakes(c: Core, accepts: Chunk -> bool)
    ensures c.ended ==> Taken(c, Done, accepts) == (c.(done := true), true)
    ensures !c.ended && Taken(c, Done, accepts).1 ==> |Taken(c, Done, accepts).0.bodies| > |c.bodies|
    ensures !c.ended && c.finish.None? ==> Taken(c, Done, accepts) == (c.(done := true), false)
  {
    hide Pushed;
    if c.finish.Some? {
      var done := c.(done := true);
      PushedOne(done, EndBody(c.finish.value, c.usage), accepts);
    }
  }

  lemma PushedOne(c: Core, body: Body, accepts: Chunk -> bool)
    ensures Pushed(c, [body], accepts)
         == if accepts(Chunk(|c.bodies|, body)) then (c.(bodies := c.bodies + [body]), true) else (c, false)
  {
  }
}
