/**
 `load_bounded_json_metadata`: one pass over the events of a JSON document that keeps only the
 direct scalar members of the top-level `guild` and `channel` objects and three other members.
 */
module BoundedJson {
  import opened Common

  // ----- documents and their events (RFC 8259)

  datatype Json =
    | Scalar(value: string)
    | Array(items: Items)
    | Object(members: Members)

  datatype Items = NoItems | Item(head: Json, tail: Items)

  /** The members of an object in document order; names may repeat (section 4 of RFC 8259). */
  datatype Members = NoMembers | Member(name: string, value: Json, rest: Members)

  datatype Event =
    | StartMap
    | EndMap
    | StartArray
    | EndArray
    | MapKey(name: string)
    | Atom(value: string)

  function Events(j: Json): (es: seq<Event>)
    ensures es != []
  {
    match j
    case Scalar(v) => [Atom(v)]
    case Array(items) => [StartArray] + ItemEvents(items) + [EndArray]
    case Object(members) => [StartMap] + MemberEvents(members) + [EndMap]
  }

  function ItemEvents(items: Items): seq<Event> {
    match items
    case NoItems => []
    case Item(head, tail) => Events(head) + ItemEvents(tail)
  }

  function MemberEvents(members: Members): seq<Event> {
    match members
    case NoMembers => []
    case Member(name, value, rest) => [MapKey(name)] + Events(value) + MemberEvents(rest)
  }

  function Max(a: nat, b: nat): nat {
    if a < b then b else a
  }

  /** How deeply arrays and objects nest. */
  function Nesting(j: Json): nat {
    match j
    case Scalar(_) => 0
    case Array(items) => 1 + ItemNesting(items)
    case Object(members) => 1 + MemberNesting(members)
  }

  function ItemNesting(items: Items): nat {
    match items
    case NoItems => 0
    case Item(head, tail) => Max(Nesting(head), ItemNesting(tail))
  }

  function MemberNesting(members: Members): nat {
    match members
    case NoMembers => 0
    case Member(_, value, rest) => Max(Nesting(value), MemberNesting(rest))
  }

  // ----- the streaming state

  /** A value of the result mapping: None, a dict of scalars, the empty list, or a scalar. */
  datatype Slot = Null | Fields(fields: map<string, string>) | EmptyList | Plain(value: string)

  const CONTAINERS: set<string> := {"guild", "channel"}
  const PLAIN: set<string> := {"messageCount", "exportedAt"}
  const KEPT: set<string> := {"guild", "channel", "messages", "messageCount", "exportedAt"}

  datatype State = State(depth: int, key: string, field: string, result: map<string, Slot>)

  datatype Outcome = Running(state: State) | Refused

  const START := State(0, "", "", map[])

  /** One event of the loop, in a document whose nesting limit is `limit`. */
  function Step(limit: nat, s: State, e: Event): Outcome {
    var depth := if e.StartMap? || e.StartArray? then s.depth + 1 else s.depth;
    if depth > s.depth && depth > limit then Refused
    else
      var t := s.(depth := depth);
      var u :=
        if e.MapKey? && depth == 1 then
          t.(key := e.name, field := "",
             result := if e.name in KEPT then t.result[e.name := Null] else t.result)
        else if e.MapKey? && depth == 2 && s.key in CONTAINERS then t.(field := e.name)
        else if e.StartMap? && depth == 2 && s.key in CONTAINERS then
          t.(result := t.result[s.key := Fields(map[])])
        else if e.StartArray? && depth == 2 && s.key == "messages" then
          t.(result := t.result["messages" := EmptyList])
        else if e.Atom? && depth == 1 && s.key in PLAIN then
          t.(result := t.result[s.key := Plain(e.value)])
        else if e.Atom? && depth == 2 && s.key in CONTAINERS && s.key in s.result && s.result[s.key].Fields? then
          t.(result := t.result[s.key := Fields(s.result[s.key].fields[s.field := e.value])])
        else t;
      Running(if e.EndMap? || e.EndArray? then u.(depth := depth - 1) else u)
  }

  function Run(limit: nat, o: Outcome, es: seq<Event>): Outcome
    decreases |es|
  {
    if es == [] || o.Refused? then o else Run(limit, Step(limit, o.state, es[0]), es[1..])
  }

  lemma {:induction false} RunAppend(limit: nat, o: Outcome, es: seq<Event>, fs: seq<Event>)
    ensures Run(limit, o, es + fs) == Run(limit, Run(limit, o, es), fs)
    decreases |es|
  {
    if es == [] {
      assert es + fs == fs;
    } else if o.Running? {
      assert (es + fs)[1..] == es[1..] + fs;
      RunAppend(limit, Step(limit, o.state, es[0]), es[1..], fs);
    }
  }

  datatype Loaded = Metadata(result: map<string, Slot>) | TooLarge | TooDeep | Invalid

  /** What the event loop makes of a stream; `malformed` says that the tokenizer stops with an
      error after these events. */
  function LoadEvents(limit: nat, events: seq<Event>, malformed: bool): Loaded {
    match Run(limit, Running(START), events)
    case Refused => TooDeep
    case Running(s) =>
      if malformed || events == [] || !events[0].StartMap? then Invalid else Metadata(s.result)
  }

  /** The loop itself, behind the size check. */
  method LoadMetadata(size: nat, maxBytes: nat, limit: nat, events: seq<Event>, malformed: bool) returns (r: Loaded)
    ensures r == if size > maxBytes then TooLarge else LoadEvents(limit, events, malformed)
  {
    if size > maxBytes {
      return TooLarge;
    }
    var result: map<string, Slot> := map[];
    var topLevelIsMap, sawEvent := false, false;
    var depth: int, key, field := 0, "", "";
    for i := 0 to |events|
      invariant Run(limit, Running(START), events)
             == Run(limit, Running(State(depth, key, field, result)), events[i..])
      invariant sawEvent == (i > 0)
      invariant topLevelIsMap == (i > 0 && events[0].StartMap?)
    {
      var e := events[i];
      ghost var before := State(depth, key, field, result);
      assert events[i..][0] == e && events[i..][1..] == events[i + 1..];
      if !sawEvent {
        sawEvent, topLevelIsMap := true, e.StartMap?;
      }
      if e.StartMap? || e.StartArray? {
        depth := depth + 1;
        if depth > limit {
          return TooDeep;
        }
      }
      if e.MapKey? && depth == 1 {
        key, field := e.name, "";
        if key in KEPT {
          result := result[key := Null];
        }
      } else if e.MapKey? && depth == 2 && key in CONTAINERS {
        field := e.name;
      } else if e.StartMap? && depth == 2 && key in CONTAINERS {
        result := result[key := Fields(map[])];
      } else if e.StartArray? && depth == 2 && key == "messages" {
        result := result["messages" := EmptyList];
      } else if e.Atom? && depth == 1 && key in PLAIN {
        result := result[key := Plain(e.value)];
      } else if e.Atom? && depth == 2 && key in CONTAINERS {
        if key in result && result[key].Fields? {
          result := result[key := Fields(result[key].fields[field := e.value])];
        }
      }
      if e.EndMap? || e.EndArray? {
        depth := depth - 1;
      }
      assert Step(limit, before, e) == Running(State(depth, key, field, result));
    }
    if malformed || !topLevelIsMap {
      return Invalid;
    }
    r := Metadata(result);
  }

  // ----- nested values leave no trace

  /** Nothing that starts here can touch the result: neither atoms nor containers nor names. */
  predicate Quiet(s: State) {
    || s.depth >= 3
    || (s.depth == 2 && s.key !in CONTAINERS)
    || (s.depth == 1 && s.key !in KEPT)
  }

  function Unless(refused: bool, s: State): Outcome {
    if refused then Refused else Running(s)
  }

  lemma {:induction false} InertValue(limit: nat, s: State, j: Json)
    requires Quiet(s) && s.depth <= limit
    ensures Run(limit, Running(s), Events(j)) == Unless(s.depth + Nesting(j) > limit, s)
    decreases j, 0
  {
    var inner := s.(depth := s.depth + 1);
    match j
    case Scalar(v) =>
      assert Events(j)[1..] == [];
    case Array(items) =>
      RunAppend(limit, Running(s), [StartArray] + ItemEvents(items), [EndArray]);
      RunAppend(limit, Running(s), [StartArray], ItemEvents(items));
      if inner.depth <= limit {
        InertItems(limit, inner, items);
      }
    case Object(members) =>
      RunAppend(limit, Running(s), [StartMap] + MemberEvents(members), [EndMap]);
      RunAppend(limit, Running(s), [StartMap], MemberEvents(members));
      if inner.depth <= limit {
        InertMembers(limit, inner, members);
      }
  }

  lemma {:induction false} InertItems(limit: nat, s: State, items: Items)
    requires Quiet(s) && s.depth <= limit
    ensures Run(limit, Running(s), ItemEvents(items)) == Unless(s.depth + ItemNesting(items) > limit, s)
    decreases items, 1
  {
    if items.Item? {
      RunAppend(limit, Running(s), Events(items.head), ItemEvents(items.tail));
      InertValue(limit, s, items.head);
      InertItems(limit, s, items.tail);
    }
  }

  lemma {:induction false} InertMembers(limit: nat, s: State, members: Members)
    requires Quiet(s) && 2 <= s.depth <= limit
    ensures Run(limit, Running(s), MemberEvents(members)) == Unless(s.depth + MemberNesting(members) > limit, s)
    decreases members, 1
  {
    if members.Member? {
      var rest := Events(members.value) + MemberEvents(members.rest);
      assert MemberEvents(members) == [MapKey(members.name)] + rest;
      assert Step(limit, s, MapKey(members.name)) == Running(s);
      RunAppend(limit, Running(s), Events(members.value), MemberEvents(members.rest));
      InertValue(limit, s, members.value);
      InertMembers(limit, s, members.rest);
    }
  }

  /** A container directly inside a kept object, or inside an array under a kept name. */
  lemma InertContainer(limit: nat, s: State, j: Json)
    requires s.depth == 2 <= limit && !j.Scalar?
    ensures Run(limit, Running(s), Events(j)) == Unless(s.depth + Nesting(j) > limit, s)
  {
    var inner := s.(depth := 3);
    match j
    case Array(items) =>
      RunAppend(limit, Running(s), [StartArray] + ItemEvents(items), [EndArray]);
      RunAppend(limit, Running(s), [StartArray], ItemEvents(items));
      if 3 <= limit {
        InertItems(limit, inner, items);
      }
    case Object(members) =>
      RunAppend(limit, Running(s), [StartMap] + MemberEvents(members), [EndMap]);
      RunAppend(limit, Running(s), [StartMap], MemberEvents(members));
      if 3 <= limit {
        InertMembers(limit, inner, members);
      }
  }

  /** An array under `guild` or `channel` leaves the member None. */
  lemma {:induction false} InertArrayUnderContainer(limit: nat, s: State, items: Items)
    requires s.depth == 2 <= limit
    requires s.key in s.result && !s.result[s.key].Fields?
    ensures Run(limit, Running(s), ItemEvents(items)) == Unless(s.depth + ItemNesting(items) > limit, s)
    decreases items
  {
    if items.Item? {
      RunAppend(limit, Running(s), Events(items.head), ItemEvents(items.tail));
      if items.head.Scalar? {
        assert Events(items.head)[1..] == [];
      } else {
        InertContainer(limit, s, items.head);
      }
      InertArrayUnderContainer(limit, s, items.tail);
    }
  }

  // ----- what the stream keeps

  /** The scalar members seen so far, overwritten in document order. */
  function Collect(fields: map<string, string>, members: Members): map<string, string>
    decreases members
  {
    match members
    case NoMembers => fields
    case Member(name, value, rest) =>
      Collect(if value.Scalar? then fields[name := value.value] else fields, rest)
  }

  function LastName(field: string, members: Members): string
    decreases members
  {
    match members
    case NoMembers => field
    case Member(name, _, rest) => LastName(name, rest)
  }

  lemma {:induction false} CollectsScalars(limit: nat, s: State, members: Members)
    requires s.depth == 2 <= limit && s.key in CONTAINERS
    requires s.key in s.result && s.result[s.key].Fields?
    ensures Run(limit, Running(s), MemberEvents(members))
         == Unless(s.depth + MemberNesting(members) > limit,
                   s.(field := LastName(s.field, members),
                      result := s.result[s.key := Fields(Collect(s.result[s.key].fields, members))]))
    decreases members
  {
    match members
    case NoMembers =>
      assert s.result[s.key := Fields(s.result[s.key].fields)] == s.result;
    case Member(name, value, rest) =>
      var tail := Events(value) + MemberEvents(rest);
      assert MemberEvents(members) == [MapKey(name)] + tail;
      var t := s.(field := name);
      assert Step(limit, s, MapKey(name)) == Running(t);
      RunAppend(limit, Running(t), Events(value), MemberEvents(rest));
      if value.Scalar? {
        assert Events(value)[1..] == [];
        var u := t.(result := t.result[s.key := Fields(s.result[s.key].fields[name := value.value])]);
        assert Run(limit, Running(t), Events(value)) == Running(u);
        CollectsScalars(limit, u, rest);
        assert u.result[s.key := Fields(Collect(u.result[s.key].fields, rest))]
            == s.result[s.key := Fields(Collect(u.result[s.key].fields, rest))];
      } else {
        InertContainer(limit, t, value);
        CollectsScalars(limit, t, rest);
      }
  }

  /** What one top-level binding of a kept name leaves in the result. */
  function StreamSlot(name: string, value: Json): Slot {
    match value
    case Scalar(v) => if name in PLAIN then Plain(v) else Null
    case Array(_) => if name == "messages" then EmptyList else Null
    case Object(members) => if name in CONTAINERS then Fields(Collect(map[], members)) else Null
  }

  ghost predicate JustNamed(s: State) {
    s.depth == 1 && s.key in KEPT && s.key in s.result && s.result[s.key] == Null
  }

  lemma TopArray(limit: nat, s: State, items: Items)
    requires JustNamed(s) && 1 <= limit
    ensures Run(limit, Running(s), Events(Array(items)))
         == Unless(2 + ItemNesting(items) > limit,
                   s.(result := s.result[s.key := StreamSlot(s.key, Array(items))]))
  {
    RunAppend(limit, Running(s), [StartArray] + ItemEvents(items), [EndArray]);
    RunAppend(limit, Running(s), [StartArray], ItemEvents(items));
    if 2 <= limit {
      var u := s.(depth := 2, result := s.result[s.key := StreamSlot(s.key, Array(items))]);
      assert s.result[s.key := Null] == s.result;
      assert Step(limit, s, StartArray) == Running(u);
      InertArrayUnderContainer(limit, u, items);
    }
  }

  lemma TopContainer(limit: nat, s: State, members: Members)
    requires JustNamed(s) && s.key in CONTAINERS && 1 <= limit
    ensures Run(limit, Running(s), Events(Object(members)))
         == Unless(2 + MemberNesting(members) > limit,
                   s.(field := LastName(s.field, members),
                      result := s.result[s.key := Fields(Collect(map[], members))]))
  {
    RunAppend(limit, Running(s), [StartMap] + MemberEvents(members), [EndMap]);
    RunAppend(limit, Running(s), [StartMap], MemberEvents(members));
    if 2 <= limit {
      var u := s.(depth := 2, result := s.result[s.key := Fields(map[])]);
      assert Step(limit, s, StartMap) == Running(u);
      CollectsScalars(limit, u, members);
      assert u.result[s.key := Fields(Collect(map[], members))]
          == s.result[s.key := Fields(Collect(map[], members))];
    }
  }

  lemma TopOtherObject(limit: nat, s: State, members: Members)
    requires JustNamed(s) && s.key !in CONTAINERS && 1 <= limit
    ensures Run(limit, Running(s), Events(Object(members))) == Unless(2 + MemberNesting(members) > limit, s)
  {
    RunAppend(limit, Running(s), [StartMap] + MemberEvents(members), [EndMap]);
    RunAppend(limit, Running(s), [StartMap], MemberEvents(members));
    if 2 <= limit {
      var inner := s.(depth := 2);
      assert Step(limit, s, StartMap) == Running(inner);
      InertMembers(limit, inner, members);
    }
  }

  /** A top-level binding of a kept name replaces exactly that member of the result. */
  lemma TopValue(limit: nat, s: State, value: Json) returns (field: string)
    requires JustNamed(s) && 1 <= limit
    ensures Run(limit, Running(s), Events(value))
         == Unless(1 + Nesting(value) > limit,
                   s.(field := field, result := s.result[s.key := StreamSlot(s.key, value)]))
  {
    field := s.field;
    assert s.result[s.key := Null] == s.result;
    match value
    case Scalar(v) =>
      assert Events(value)[1..] == [];
    case Array(items) =>
      TopArray(limit, s, items);
    case Object(members) =>
      if s.key in CONTAINERS {
        TopContainer(limit, s, members);
        field := LastName(s.field, members);
      } else {
        TopOtherObject(limit, s, members);
      }
  }

  function StreamTop(result: map<string, Slot>, members: Members): map<string, Slot>
    decreases members
  {
    match members
    case NoMembers => result
    case Member(name, value, rest) =>
      StreamTop(if name in KEPT then result[name := StreamSlot(name, value)] else result, rest)
  }

  lemma {:induction false} TopMembers(limit: nat, s: State, members: Members)
    requires s.depth == 1 <= limit
    ensures match Run(limit, Running(s), MemberEvents(members))
            case Refused => 1 + MemberNesting(members) > limit
            case Running(t) =>
              1 + MemberNesting(members) <= limit && t.depth == 1 && t.result == StreamTop(s.result, members)
    decreases members
  {
    if members.Member? {
      var name, value, rest := members.name, members.value, members.rest;
      var tail := Events(value) + MemberEvents(rest);
      assert MemberEvents(members) == [MapKey(name)] + tail;
      var t := s.(key := name, field := "", result := if name in KEPT then s.result[name := Null] else s.result);
      assert Step(limit, s, MapKey(name)) == Running(t);
      RunAppend(limit, Running(t), Events(value), MemberEvents(rest));
      var u := t;
      if name in KEPT {
        var field := TopValue(limit, t, value);
        u := t.(field := field, result := t.result[name := StreamSlot(name, value)]);
        assert u.result == s.result[name := StreamSlot(name, value)];
      } else {
        InertValue(limit, t, value);
      }
      TopMembers(limit, u, rest);
    }
  }

  // ----- the parsed document

  /** The value a parsed object gives a name: the last binding wins. */
  function Lookup(members: Members, name: string): Option<Json>
    decreases members
  {
    match members
    case NoMembers => None
    case Member(n, value, rest) =>
      var later := Lookup(rest, name);
      if later.Some? then later else if n == name then Some(value) else None
  }

  function Names(members: Members): (r: set<string>)
    ensures forall n :: n in r <==> Lookup(members, n).Some?
    decreases members
  {
    match members
    case NoMembers => {}
    case Member(n, _, rest) => {n} + Names(rest)
  }

  /** The direct scalar members of a parsed object. */
  function ScalarMembers(members: Members): map<string, string> {
    map n | n in Names(members) && Lookup(members, n).value.Scalar? :: Lookup(members, n).value.value
  }

  function ProjectValue(name: string, value: Json): Slot {
    if name in CONTAINERS && value.Object? then Fields(ScalarMembers(value.members))
    else if name == "messages" && value.Array? then EmptyList
    else if name in PLAIN && value.Scalar? then Plain(value.value)
    else Null
  }

  /** The metadata of the parsed document, as the documentation describes it. */
  function Projection(members: Members): map<string, Slot> {
    map n | n in KEPT && Lookup(members, n).Some? :: ProjectValue(n, Lookup(members, n).value)
  }

  ghost predicate HasScalar(members: Members, name: string)
    decreases members
  {
    match members
    case NoMembers => false
    case Member(n, value, rest) => (n == name && value.Scalar?) || HasScalar(rest, name)
  }

  /** No name bound to a scalar is later rebound to an array or an object. */
  ghost predicate NoShadowedScalar(members: Members) {
    forall n :: HasScalar(members, n) ==> Lookup(members, n).Some? && Lookup(members, n).value.Scalar?
  }

  lemma {:induction false} NotNamedNoScalar(members: Members, name: string)
    requires Lookup(members, name).None?
    ensures !HasScalar(members, name)
    decreases members
  {
    if members.Member? {
      NotNamedNoScalar(members.rest, name);
    }
  }

  /** The stream keeps the last scalar binding of each name. */
  lemma {:induction false} CollectIsLastScalar(fields: map<string, string>, members: Members, name: string)
    ensures name in Collect(fields, members) <==> name in fields || HasScalar(members, name)
    ensures !HasScalar(members, name) && name in fields ==> Collect(fields, members)[name] == fields[name]
    ensures Lookup(members, name).Some? && Lookup(members, name).value.Scalar? ==>
              HasScalar(members, name) && Collect(fields, members)[name] == Lookup(members, name).value.value
    decreases members
  {
    if members.Member? {
      var next := if members.value.Scalar? then fields[members.name := members.value.value] else fields;
      CollectIsLastScalar(next, members.rest, name);
      if Lookup(members.rest, name).None? {
        NotNamedNoScalar(members.rest, name);
      }
    }
  }

  /** Streaming one object agrees with parsing it exactly when no scalar is shadowed. */
  lemma CollectAgreesExactly(members: Members)
    ensures Collect(map[], members) == ScalarMembers(members) <==> NoShadowedScalar(members)
  {
    var streamed, parsed := Collect(map[], members), ScalarMembers(members);
    forall n
      ensures n in streamed <==> HasScalar(members, n)
      ensures n in parsed ==> n in streamed && streamed[n] == parsed[n]
    {
      CollectIsLastScalar(map[], members, n);
    }
    if streamed == parsed {
      forall n | HasScalar(members, n)
        ensures Lookup(members, n).Some? && Lookup(members, n).value.Scalar?
      {
        assert n in parsed;
      }
    }
  }

  /** The last binding of each kept name decides its slot; earlier ones leave nothing behind. */
  lemma {:induction false} StreamTopLastWins(result: map<string, Slot>, members: Members, name: string)
    ensures match Lookup(members, name)
            case Some(value) => name in KEPT ==>
              name in StreamTop(result, members) && StreamTop(result, members)[name] == StreamSlot(name, value)
            case None =>
              && (name in StreamTop(result, members) <==> name in result)
              && (name in result ==> StreamTop(result, members)[name] == result[name])
    ensures name !in KEPT ==>
              && (name in StreamTop(result, members) <==> name in result)
              && (name in result ==> StreamTop(result, members)[name] == result[name])
    decreases members
  {
    if members.Member? {
      var next := if members.name in KEPT then result[members.name := StreamSlot(members.name, members.value)] else result;
      StreamTopLastWins(next, members.rest, name);
    }
  }

  /** The kept object under `name`, if its last binding is one, shadows no scalar. */
  ghost predicate ContainerClear(members: Members, name: string) {
    match Lookup(members, name)
    case Some(Object(inner)) => NoShadowedScalar(inner)
    case _ => true
  }

  lemma SlotAgreesExactly(name: string, value: Json)
    requires name in KEPT
    ensures StreamSlot(name, value) == ProjectValue(name, value)
       <==> (name in CONTAINERS && value.Object? ==> NoShadowedScalar(value.members))
  {
    if value.Object? {
      CollectAgreesExactly(value.members);
    }
  }

  lemma TopSlotAgrees(members: Members, n: string)
    ensures var streamed, parsed := StreamTop(map[], members), Projection(members);
            && (n in streamed <==> n in parsed)
            && (n in parsed ==> (streamed[n] == parsed[n] <==> (n in CONTAINERS ==> ContainerClear(members, n))))
  {
    StreamTopLastWins(map[], members, n);
    if n in Projection(members) {
      SlotAgreesExactly(n, Lookup(members, n).value);
    }
  }

  lemma UnclearIsKept(members: Members, n: string)
    requires n in CONTAINERS && !ContainerClear(members, n)
    ensures n in Projection(members)
  {
  }

  lemma TopAgreesExactly(members: Members)
    ensures StreamTop(map[], members) == Projection(members)
       <==> ContainerClear(members, "guild") && ContainerClear(members, "channel")
  {
    var streamed, parsed := StreamTop(map[], members), Projection(members);
    TopSlotAgrees(members, "guild");
    TopSlotAgrees(members, "channel");
    if ContainerClear(members, "guild") && ContainerClear(members, "channel") {
      forall n ensures n in streamed <==> n in parsed
               ensures n in parsed ==> streamed[n] == parsed[n]
      {
        TopSlotAgrees(members, n);
      }
      assert streamed == parsed;
    } else if !ContainerClear(members, "guild") {
      UnclearIsKept(members, "guild");
    } else {
      UnclearIsKept(members, "channel");
    }
  }

  /** Main result: on every document within the nesting limit the stream yields the metadata of
      the parsed document exactly when neither kept object shadows a scalar by a repeated name. */
  lemma StreamIsProjection(limit: nat, members: Members)
    requires Nesting(Object(members)) <= limit
    ensures LoadEvents(limit, Events(Object(members)), false) == Metadata(StreamTop(map[], members))
    ensures LoadEvents(limit, Events(Object(members)), false) == Metadata(Projection(members))
       <==> ContainerClear(members, "guild") && ContainerClear(members, "channel")
  {
    StreamedObject(limit, members);
    TopAgreesExactly(members);
  }

  lemma StreamedObject(limit: nat, members: Members)
    ensures var o := Run(limit, Running(START), Events(Object(members)));
            if Nesting(Object(members)) > limit then o == Refused
            else o.Running? && o.state.result == StreamTop(map[], members)
  {
    RunAppend(limit, Running(START), [StartMap] + MemberEvents(members), [EndMap]);
    RunAppend(limit, Running(START), [StartMap], MemberEvents(members));
    if 1 <= limit {
      TopMembers(limit, START.(depth := 1), members);
    }
  }

  lemma ScalarDocument(limit: nat, v: string)
    ensures LoadEvents(limit, Events(Scalar(v)), false) == LoadEvents(limit, [Atom(v)], false)
    ensures LoadEvents(limit, [Atom(v)], false) != TooDeep && !LoadEvents(limit, [Atom(v)], false).Metadata?
  {
    assert Step(limit, START, Atom(v)) == Running(START);
    assert [Atom(v)][1..] == [];
    assert Run(limit, Running(START), [Atom(v)]) == Run(limit, Running(START), []);
  }

  lemma ArrayDocument(limit: nat, items: Items)
    ensures var o := Run(limit, Running(START), Events(Array(items)));
            if Nesting(Array(items)) > limit then o == Refused
            else o.Running? && o.state.result == map[]
  {
    RunAppend(limit, Running(START), [StartArray] + ItemEvents(items), [EndArray]);
    RunAppend(limit, Running(START), [StartArray], ItemEvents(items));
    if 1 <= limit {
      InertItems(limit, START.(depth := 1), items);
    }
  }

  /** A whole document is refused for its nesting exactly when it nests deeper than the limit, and
      otherwise accepted exactly when it is an object. */
  lemma RefusedExactly(limit: nat, j: Json)
    ensures LoadEvents(limit, Events(j), false) == TooDeep <==> Nesting(j) > limit
    ensures LoadEvents(limit, Events(j), false).Metadata? <==> Nesting(j) <= limit && j.Object?
  {
    match j
    case Scalar(v) => ScalarDocument(limit, v);
    case Array(items) => ArrayDocument(limit, items);
    case Object(members) => StreamedObject(limit, members);
  }

  lemma {:induction false} RefusedPrefix(limit: nat, es: seq<Event>, n: nat)
    requires n <= |es| && Run(limit, Running(START), es[..n]).Refused?
    ensures Run(limit, Running(START), es).Refused?
  {
    RunAppend(limit, Running(START), es[..n], es[n..]);
    assert es[..n] + es[n..] == es;
  }

  /** A document that breaks off is never accepted, wherever it does; it is refused for its nesting
      only if the whole nests too deeply. */
  lemma BrokenDocumentIsRefused(limit: nat, j: Json, n: nat)
    requires n <= |Events(j)|
    ensures var r := LoadEvents(limit, Events(j)[..n], true);
            (r == Invalid || r == TooDeep) && (r == TooDeep ==> Nesting(j) > limit)
  {
    if Run(limit, Running(START), Events(j)[..n]).Refused? {
      RefusedPrefix(limit, Events(j), n);
      RefusedExactly(limit, j);
    }
  }

  /** The projection, name by name: of guild and channel the scalar members when they are objects, an
      empty list for the messages, and the two scalars; a kept name bound to anything else is None. */
  lemma ProjectionExactly(members: Members, n: string)
    ensures var r := Projection(members);
            && (n in r <==> (n == "guild" || n == "channel" || n == "messages" || n == "messageCount" || n == "exportedAt")
                            && Lookup(members, n).Some?)
            && (n in r ==>
                  match Lookup(members, n).value
                  case Object(inner) =>
                    if n == "guild" || n == "channel" then
                      && r[n].Fields?
                      && forall k :: (k in r[n].fields <==> Lookup(inner, k).Some? && Lookup(inner, k).value.Scalar?)
                                     && (k in r[n].fields ==> Lookup(inner, k) == Some(Scalar(r[n].fields[k])))
                    else r[n] == Null
                  case Array(_) => r[n] == (if n == "messages" then EmptyList else Null)
                  case Scalar(v) => r[n] == (if n == "messageCount" || n == "exportedAt" then Plain(v) else Null))
  {
  }

  ghost predicate Distinct(members: Members)
    decreases members
  {
    match members
    case NoMembers => true
    case Member(n, _, rest) => Lookup(rest, n).None? && Distinct(rest)
  }

  lemma {:induction false} DistinctShadowsNothing(members: Members)
    requires Distinct(members)
    ensures NoShadowedScalar(members)
    decreases members
  {
    if members.Member? {
      DistinctShadowsNothing(members.rest);
      NotNamedNoScalar(members.rest, members.name);
      forall n | HasScalar(members, n)
        ensures Lookup(members, n).Some? && Lookup(members, n).value.Scalar?
      {
        if n != members.name {
          assert HasScalar(members.rest, n);
        }
      }
    }
  }

  /** A document whose guild and channel objects repeat no name is projected exactly. */
  lemma DistinctNamesProject(limit: nat, members: Members)
    requires Nesting(Object(members)) <= limit
    requires forall n :: n in CONTAINERS ==>
               match Lookup(members, n) case Some(Object(inner)) => Distinct(inner) case _ => true
    ensures LoadEvents(limit, Events(Object(members)), false) == Metadata(Projection(members))
  {
    forall n | n in CONTAINERS ensures ContainerClear(members, n) {
      match Lookup(members, n)
      case Some(Object(inner)) => DistinctShadowsNothing(inner);
      case _ =>
    }
    StreamIsProjection(limit, members);
  }

  /** A disagreement: a repeated name whose scalar is shadowed by an array. */
  lemma ShadowedScalarLeaks()
    ensures var guild := Member("id", Scalar("1"), Member("id", Array(NoItems), NoMembers));
            var document := Member("guild", Object(guild), NoMembers);
            && Nesting(Object(document)) == 3
            && LoadEvents(3, Events(Object(document)), false) != Metadata(Projection(document))
  {
    var guild := Member("id", Scalar("1"), Member("id", Array(NoItems), NoMembers));
    var document := Member("guild", Object(guild), NoMembers);
    assert MemberNesting(Member("id", Array(NoItems), NoMembers)) == 1;
    assert Nesting(Object(guild)) == 2;
    assert HasScalar(guild, "id") && Lookup(guild, "id") == Some(Array(NoItems));
    assert !ContainerClear(document, "guild");
    StreamIsProjection(3, document);
  }
}
