/**
 Interleaved argument streaming, and which lines of a stream matter.

 `ArgumentsFor` follows one call alone; the shared table of the stream agrees with it at every
 key, however the fragments of other calls are mixed in.
 */
module StreamArguments {
  import opened JsonValues
  import opened Options
  import opened ResponseStream

  predicate IsFor(e: Effect, key: string) {
    (e.AppendArguments? || e.SetArguments?) && e.key == key
  }

  function Own(effects: seq<Effect>, key: string): seq<Effect> {
    if effects == [] then []
    else
      var earlier := Own(effects[..|effects| - 1], key);
      if IsFor(effects[|effects| - 1], key) then earlier + [effects[|effects| - 1]] else earlier
  }

  /** The arguments of one call, from its own fragments only. */
  function ArgumentsFor(own: seq<Effect>): Option<string> {
    if own == [] then None
    else
      var earlier := ArgumentsFor(own[..|own| - 1]);
      match own[|own| - 1]
      case AppendArguments(_, delta) => Some(earlier.GetOr("") + delta)
      case SetArguments(_, whole) => Some(whole)
      case _ => earlier
  }

  predicate AllDeltas(own: seq<Effect>) {
    forall e :: e in own ==> e.AppendArguments?
  }

  function Concatenation(deltas: seq<Effect>): string
    requires AllDeltas(deltas)
  {
    if deltas == [] then "" else Concatenation(deltas[..|deltas| - 1]) + deltas[|deltas| - 1].delta
  }

  lemma {:induction false} ArgumentsArePerKey(effects: seq<Effect>, key: string)
    ensures Lookup(Gather(effects).arguments, Some(key)) == ArgumentsFor(Own(effects, key))
  {
    if effects != [] {
      var earlier, last := effects[..|effects| - 1], effects[|effects| - 1];
      ArgumentsArePerKey(earlier, key);
      if IsFor(last, key) {
        assert (Own(earlier, key) + [last])[..|Own(earlier, key)|] == Own(earlier, key);
      }
    }
  }

  /** Two streams that agree call by call end with the same table, whatever the interleaving. */
  lemma InterleavingIsInvisible(a: seq<Effect>, b: seq<Effect>)
    requires forall key :: Own(a, key) == Own(b, key)
    ensures Gather(a).arguments == Gather(b).arguments
  {
    var x, y := Gather(a).arguments, Gather(b).arguments;
    forall key
      ensures (key in x <==> key in y) && (key in x ==> x[key] == y[key])
    {
      ArgumentsArePerKey(a, key);
      ArgumentsArePerKey(b, key);
      assert Lookup(x, Some(key)) == Lookup(y, Some(key));
    }
  }

  predicate OnArguments(e: Effect) { e.AppendArguments? || e.SetArguments? }

  predicate AllOnArguments(own: seq<Effect>) {
    forall k :: 0 <= k < |own| ==> OnArguments(own[k])
  }

  /** Where the fragments after the last whole string begin; 0 if no whole string was sent. */
  function FragmentsFrom(own: seq<Effect>): (r: nat)
    ensures r <= |own| && (r > 0 ==> own[r - 1].SetArguments?)
    ensures forall k :: r <= k < |own| ==> !own[k].SetArguments?
  {
    if own == [] then 0
    else if own[|own| - 1].SetArguments? then |own|
    else FragmentsFrom(own[..|own| - 1])
  }

  /** What a call has been sent: the last whole string, if any, and the fragments after it, joined in order. */
  function Received(own: seq<Effect>): string
    requires AllOnArguments(own)
  {
    var r := FragmentsFrom(own);
    (if r == 0 then "" else own[r - 1].whole) + Concatenation(own[r..])
  }

  lemma {:induction false} OwnIsOnArguments(effects: seq<Effect>, key: string)
    ensures AllOnArguments(Own(effects, key))
  {
    if effects != [] {
      OwnIsOnArguments(effects[..|effects| - 1], key);
    }
  }

  lemma ReceivedGrows(earlier: seq<Effect>, last: Effect)
    requires AllOnArguments(earlier) && last.AppendArguments?
    ensures AllOnArguments(earlier + [last]) && Received(earlier + [last]) == Received(earlier) + last.delta
  {
    var own := earlier + [last];
    assert own[..|own| - 1] == earlier;
    var r := FragmentsFrom(earlier);
    var whole := if r == 0 then "" else earlier[r - 1].whole;
    assert FragmentsFrom(own) == r && (r > 0 ==> own[r - 1] == earlier[r - 1]);
    assert own[r..][..|own[r..]| - 1] == earlier[r..];
    assert whole + (Concatenation(earlier[r..]) + last.delta) == (whole + Concatenation(earlier[r..])) + last.delta;
  }

  lemma ReceivedAnew(earlier: seq<Effect>, last: Effect)
    requires AllOnArguments(earlier) && last.SetArguments?
    ensures AllOnArguments(earlier + [last]) && Received(earlier + [last]) == last.whole
  {
    var own := earlier + [last];
    assert own[|own|..] == [] && last.whole + "" == last.whole;
  }

  /** Folding one call's own events leaves exactly what it has been sent. */
  lemma {:induction false} ArgumentsAreReceived(own: seq<Effect>)
    requires AllOnArguments(own)
    ensures ArgumentsFor(own) == if own == [] then None else Some(Received(own))
  {
    if own != [] {
      var earlier, last := own[..|own| - 1], own[|own| - 1];
      assert own == earlier + [last];
      ArgumentsAreReceived(earlier);
      if last.SetArguments? {
        ReceivedAnew(earlier, last);
      } else {
        ReceivedGrows(earlier, last);
        assert earlier == [] ==> Received(earlier) == "";
      }
    }
  }

  // ---- Finished items --------------------------------------------------------------------------------

  function FinishedCount(effects: seq<Effect>): nat {
    if effects == [] then 0
    else FinishedCount(effects[..|effects| - 1]) + if effects[|effects| - 1].FinishItem? then 1 else 0
  }

  lemma {:induction false} OneItemPerFinish(effects: seq<Effect>)
    ensures |Gather(effects).items| == FinishedCount(effects)
  {
    if effects != [] {
      OneItemPerFinish(effects[..|effects| - 1]);
    }
  }

  /** The item finished at position `i` is filled from the table as it stood then, and never touched again. */
  lemma {:induction false} ItemFinishedAt(effects: seq<Effect>, i: nat)
    requires i < |effects| && effects[i].FinishItem?
    ensures FinishedCount(effects[..i]) < |Gather(effects).items|
    ensures Gather(effects).items[FinishedCount(effects[..i])]
         == Filled(effects[i].item, effects[i].event, Gather(effects[..i]).arguments)
    decreases |effects|
  {
    var earlier := effects[..|effects| - 1];
    if i == |effects| - 1 {
      OneItemPerFinish(earlier);
    } else {
      ItemFinishedAt(earlier, i);
      assert earlier[..i] == effects[..i];
    }
  }

  function ItemAt(effects: seq<Effect>, i: nat): Json
    requires i < |effects| && effects[i].FinishItem?
  {
    ItemFinishedAt(effects, i);
    Gather(effects).items[FinishedCount(effects[..i])]
  }

  function OwnOf(effects: seq<Effect>, key: Option<string>): seq<Effect> {
    match key case Some(k) => Own(effects, k) case None => []
  }

  /** The events a finished call is filled from: those under its own key or, if there are none, under its index. */
  function Sent(effects: seq<Effect>, finish: Effect): seq<Effect>
    requires finish.FinishItem?
  {
    var byKey := OwnOf(effects, ItemKey(finish.event, Some(finish.item)));
    if byKey != [] then byKey else OwnOf(effects, IndexKey(finish.event))
  }

  /** What a finished item carries, from its own events alone. */
  function FinishedItem(effects: seq<Effect>, finish: Effect): Json
    requires finish.FinishItem?
  {
    SentIsOnArguments(effects, finish);
    if AwaitsArguments(finish.item) && Sent(effects, finish) != []
    then WithArguments(finish.item, Received(Sent(effects, finish)))
    else finish.item
  }

  lemma SentIsOnArguments(effects: seq<Effect>, finish: Effect)
    requires finish.FinishItem?
    ensures AllOnArguments(Sent(effects, finish))
  {
    match ItemKey(finish.event, Some(finish.item)) {
      case Some(key) => OwnIsOnArguments(effects, key);
      case None =>
    }
    match IndexKey(finish.event) {
      case Some(key) => OwnIsOnArguments(effects, key);
      case None =>
    }
  }

  lemma LookupIsReceived(effects: seq<Effect>, key: Option<string>)
    ensures AllOnArguments(OwnOf(effects, key))
    ensures Lookup(Gather(effects).arguments, key)
         == if OwnOf(effects, key) == [] then None else Some(Received(OwnOf(effects, key)))
  {
    if key.Some? {
      OwnIsOnArguments(effects, key.value);
      ArgumentsArePerKey(effects, key.value);
      ArgumentsAreReceived(Own(effects, key.value));
    }
  }

  /** Every item finished in a stream carries what its own call had been sent by then, whatever else arrived. */
  lemma FinishedCallGetsItsOwnArguments(effects: seq<Effect>, i: nat)
    requires i < |effects| && effects[i].FinishItem?
    ensures ItemAt(effects, i) == FinishedItem(effects[..i], effects[i])
  {
    ItemFinishedAt(effects, i);
    LookupIsReceived(effects[..i], ItemKey(effects[i].event, Some(effects[i].item)));
    LookupIsReceived(effects[..i], IndexKey(effects[i].event));
  }

  /** How a call's arguments were cut into fragments and whole strings does not show in its item. */
  lemma SameArgumentsSameItem(a: seq<Effect>, i: nat, b: seq<Effect>, j: nat)
    requires i < |a| && j < |b| && a[i].FinishItem? && a[i] == b[j]
    requires AllOnArguments(Sent(a[..i], a[i])) && AllOnArguments(Sent(b[..j], b[j]))
    requires Sent(a[..i], a[i]) == [] <==> Sent(b[..j], b[j]) == []
    requires Received(Sent(a[..i], a[i])) == Received(Sent(b[..j], b[j]))
    ensures ItemAt(a, i) == ItemAt(b, j)
  {
    FinishedCallGetsItsOwnArguments(a, i);
    FinishedCallGetsItsOwnArguments(b, j);
  }

  lemma ConcatenationIsReceived(own: seq<Effect>)
    requires AllDeltas(own)
    ensures AllOnArguments(own) && Received(own) == Concatenation(own)
  {
    assert forall k :: 0 <= k < |own| ==> own[k] in own;
    assert own[0..] == own && "" + Concatenation(own) == Concatenation(own);
  }

  /** In particular, fragments are joined in order, and one whole string in their place finishes the same item. */
  lemma FragmentsOrWhole(a: seq<Effect>, i: nat, b: seq<Effect>, j: nat, key: string)
    requires i < |a| && j < |b| && a[i].FinishItem? && a[i] == b[j] && AwaitsArguments(a[i].item)
    requires Sent(a[..i], a[i]) != [] && AllDeltas(Sent(a[..i], a[i]))
    requires Sent(b[..j], b[j]) == [SetArguments(key, Concatenation(Sent(a[..i], a[i])))]
    ensures ItemAt(a, i) == WithArguments(a[i].item, Concatenation(Sent(a[..i], a[i])))
    ensures ItemAt(a, i) == ItemAt(b, j)
  {
    var deltas := Sent(a[..i], a[i]);
    ConcatenationIsReceived(deltas);
    ReceivedAnew([], SetArguments(key, Concatenation(deltas)));
    assert [] + [SetArguments(key, Concatenation(deltas))] == Sent(b[..j], b[j]);
    FinishedCallGetsItsOwnArguments(a, i);
    SameArgumentsSameItem(a, i, b, j);
  }

  // ---- Reordering ------------------------------------------------------------------------------------

  /** The item may be filled from `key`. */
  predicate Consults(e: Effect, key: string) {
    && e.FinishItem? && AwaitsArguments(e.item)
    && (ItemKey(e.event, Some(e.item)) == Some(key) || IndexKey(e.event) == Some(key))
  }

  /** Neither effect can see or overwrite what the other does. */
  predicate Independent(a: Effect, b: Effect) {
    || a.NoEffect? || b.NoEffect?
    || (OnArguments(a) && OnArguments(b) && a.key != b.key)
    || (OnArguments(a) && !OnArguments(b) && !Consults(b, a.key))
    || (OnArguments(b) && !OnArguments(a) && !Consults(a, b.key))
    || (a.FinishItem? && (b.AddText? || b.Complete?)) || (b.FinishItem? && (a.AddText? || a.Complete?))
    || (a.AddText? && b.Complete?) || (b.AddText? && a.Complete?)
  }

  lemma IndependentEffectsCommute(g: Gathered, a: Effect, b: Effect)
    requires Independent(a, b)
    ensures Apply(Apply(g, a), b) == Apply(Apply(g, b), a)
  {
    if OnArguments(a) && OnArguments(b) && a.key != b.key {
      OtherKeysCommute(g, a, b);
    } else if OnArguments(a) && b.FinishItem? && !Consults(b, a.key) {
      FillIgnoresOtherKeys(g, a, b);
    } else if OnArguments(b) && a.FinishItem? && !Consults(a, b.key) {
      FillIgnoresOtherKeys(g, b, a);
    }
  }

  lemma OtherKeysCommute(g: Gathered, a: Effect, b: Effect)
    requires OnArguments(a) && OnArguments(b) && a.key != b.key
    ensures Apply(Apply(g, a), b) == Apply(Apply(g, b), a)
  {
    assert Apply(Apply(g, a), b).arguments == Apply(Apply(g, b), a).arguments;
  }

  lemma FillIgnoresOtherKeys(g: Gathered, fragment: Effect, finish: Effect)
    requires OnArguments(fragment) && finish.FinishItem? && !Consults(finish, fragment.key)
    ensures Filled(finish.item, finish.event, Apply(g, fragment).arguments)
         == Filled(finish.item, finish.event, g.arguments)
  {
    forall key | key != fragment.key
      ensures Lookup(Apply(g, fragment).arguments, Some(key)) == Lookup(g.arguments, Some(key))
    {
    }
  }

  /** Swapping two neighbouring independent events anywhere in a stream changes nothing at all. */
  lemma {:induction false} SwapIsInvisible(before: seq<Effect>, a: Effect, b: Effect, after: seq<Effect>)
    requires Independent(a, b)
    ensures Gather(before + [a, b] + after) == Gather(before + [b, a] + after)
    decreases |after|
  {
    var x, y := before + [a, b] + after, before + [b, a] + after;
    if after == [] {
      assert x[..|x| - 1][..|before|] == before && y[..|y| - 1][..|before|] == before;
      assert x[..|x| - 1] == before + [a] && y[..|y| - 1] == before + [b];
      IndependentEffectsCommute(Gather(before), a, b);
    } else {
      var init := after[..|after| - 1];
      SwapIsInvisible(before, a, b, init);
      assert x[..|x| - 1] == before + [a, b] + init && y[..|y| - 1] == before + [b, a] + init;
    }
  }

  // ---- Which lines matter ----------------------------------------------------------------------------

  function Payloads(lines: seq<Line>): seq<Json> {
    if lines == [] then []
    else
      var earlier := Payloads(lines[..|lines| - 1]);
      match lines[|lines| - 1]
      case Payload(body) => earlier + [body]
      case _ => earlier
  }

  predicate AllTyped(lines: seq<Line>) {
    forall line :: line in lines && line.Payload? ==> FieldString(line.body, "type").Some?
  }

  function TypedFrames(bodies: seq<Json>): seq<Frame> {
    if bodies == [] then []
    else
      TypedFrames(bodies[..|bodies| - 1])
      + [Frame(KindOf(FieldString(bodies[|bodies| - 1], "type")), bodies[|bodies| - 1])]
  }

  lemma {:induction false} TypedPayloadsDecide(lines: seq<Line>)
    requires AllTyped(lines)
    ensures Frames(lines) == TypedFrames(Payloads(lines))
  {
    if lines != [] {
      var earlier := lines[..|lines| - 1];
      TypedPayloadsDecide(earlier);
      assert lines[|lines| - 1] in lines;
      match lines[|lines| - 1] {
        case Payload(body) =>
          assert (Payloads(earlier) + [body])[..|Payloads(earlier)|] == Payloads(earlier);
        case _ =>
      }
    }
  }

  /** When every payload names its type, event names, blank and unreadable lines are irrelevant. */
  lemma OnlyPayloadsMatter(a: seq<Line>, b: seq<Line>)
    requires AllTyped(a) && AllTyped(b) && Payloads(a) == Payloads(b)
    ensures StreamBody(a) == StreamBody(b)
  {
    TypedPayloadsDecide(a);
    TypedPayloadsDecide(b);
  }

  /**
   A payload without a type takes the last event name, however many blank or unreadable lines lie
   between.
   */
  lemma {:induction false} EventNameOutlivesOtherLines(before: seq<Line>, name: string, between: seq<Line>, body: Json)
    requires forall line :: line in between ==> !line.EventName?
    requires FieldString(body, "type").None?
    ensures Frames(before + [EventName(name)] + between + [Payload(body)])
         == Frames(before + [EventName(name)] + between) + [Frame(KindOf(Some(name)), body)]
  {
    var lines := before + [EventName(name)] + between;
    assert (lines + [Payload(body)])[..|lines|] == lines;
    NameSticks(before, name, between);
  }

  lemma {:induction false} NameSticks(before: seq<Line>, name: string, between: seq<Line>)
    requires forall line :: line in between ==> !line.EventName?
    ensures CurrentName(before + [EventName(name)] + between) == Some(name)
  {
    var lines := before + [EventName(name)] + between;
    if between == [] {
      assert lines == before + [EventName(name)];
    } else {
      var init := between[..|between| - 1];
      NameSticks(before, name, init);
      assert between[|between| - 1] in between;
      assert lines[..|lines| - 1] == before + [EventName(name)] + init;
    }
  }
}
