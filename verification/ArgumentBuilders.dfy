/** Streaming recognisers for dynamic-tool arguments: one object with one string field, delivered as control
    events and byte fragments cut anywhere. */
module ArgumentBuilders {
  import opened Common
  import opened Utf8

  datatype Rejection =
    | RootMustBeObject
    | MissingRequiredField
    | UnknownField
    | DuplicateField
    | WrongValueShape
    | InvalidControlSequence
    | InvalidScalarFragment
    | InvalidEnum
    | EmptyString
    | StringTooLong

  datatype Kind = ObjectName | String | OtherScalar

  datatype Event =
    | ObjectStart
    | ObjectEnd
    | OtherContainer
    | ScalarStart(kind: Kind)
    | ScalarEnd(kind: Kind)
    | Fragment(kind: Kind, offset: nat, bytes: seq<Byte>)

  /** A string value sink, seen from outside: what one fragment does to it and what it finishes with. */
  datatype Sink<!S, !O> = Sink(
    start: S, feed: (S, seq<Byte>) -> Result<S, Rejection>, finish: S -> Result<O, Rejection>)

  function FeedAll<S, O>(sink: Sink<S, O>, chunks: seq<seq<Byte>>): (r: Result<S, Rejection>)
  {
    if chunks == [] then Ok(sink.start)
    else
      match FeedAll(sink, chunks[..|chunks| - 1])
      case Err(e) => Err(e)
      case Ok(s) => sink.feed(s, chunks[|chunks| - 1])
  }

  // The object builder

  datatype State = Root | NameOrEnd | Name | Value | ValueString | AfterValue | Finished

  datatype Builder<S, O> = Builder(
    state: State, fieldSeen: bool, nameMatches: bool, nameOffset: nat, valueOffset: nat,
    value: S, output: Option<O>, rejection: Option<Rejection>)

  function New<S, O>(sink: Sink<S, O>): (b: Builder<S, O>)
  {
    Builder(Root, false, true, 0, 0, sink.start, None, None)
  }

  function Reject<S, O>(b: Builder<S, O>, why: Rejection): (b': Builder<S, O>)
  {
    b.(rejection := Some(why))
  }

  function OnControl<S, O>(field: seq<Byte>, sink: Sink<S, O>, b: Builder<S, O>, event: Event): (b': Builder<S, O>)
  {
    match (b.state, event)
    case (Root, ObjectStart) => b.(state := NameOrEnd)
    case (Root, _) => Reject(b, RootMustBeObject)
    case (NameOrEnd, ScalarStart(ObjectName)) => b.(state := Name, nameMatches := true, nameOffset := 0)
    case (AfterValue, ScalarStart(ObjectName)) => b.(state := Name, nameMatches := true, nameOffset := 0)
    case (NameOrEnd, ObjectEnd) => Reject(b, MissingRequiredField)
    case (AfterValue, ObjectEnd) => b.(state := Finished)
    case (Name, ScalarEnd(ObjectName)) =>
      if !b.nameMatches || b.nameOffset != |field| then Reject(b, UnknownField)
      else if b.fieldSeen then Reject(b, DuplicateField)
      else b.(state := Value)
    case (Value, ScalarStart(String)) => b.(state := ValueString, value := sink.start, valueOffset := 0)
    case (ValueString, ScalarEnd(String)) =>
      (match sink.finish(b.value)
       case Ok(output) => b.(state := AfterValue, output := Some(output), fieldSeen := true)
       case Err(why) => Reject(b, why))
    case (Finished, _) => Reject(b, InvalidControlSequence)
    case (Value, _) => Reject(b, WrongValueShape)
    case _ => Reject(b, InvalidControlSequence)
  }

  function OnFragment<S, O>(
    field: seq<Byte>, sink: Sink<S, O>, b: Builder<S, O>, kind: Kind, offset: nat, bytes: seq<Byte>)
    : (b': Builder<S, O>)
  {
    if b.state == Name && kind == ObjectName then
      if offset != b.nameOffset || offset + |bytes| > U64_MAX then Reject(b, InvalidScalarFragment)
      else
        var end := offset + |bytes|;
        b.(nameMatches := b.nameMatches && end <= |field| && field[offset..end] == bytes, nameOffset := end)
    else if b.state == ValueString && kind == String then
      if offset != b.valueOffset then Reject(b, InvalidScalarFragment)
      else
        match sink.feed(b.value, bytes)
        case Err(why) => Reject(b, why)
        case Ok(s) =>
          if offset + |bytes| > U64_MAX then Reject(b.(value := s), InvalidScalarFragment)
          else b.(value := s, valueOffset := offset + |bytes|)
    else Reject(b, InvalidScalarFragment)
  }

  function On<S, O>(field: seq<Byte>, sink: Sink<S, O>, b: Builder<S, O>, event: Event): (b': Builder<S, O>)
  {
    if b.rejection.Some? then b
    else
      match event
      case Fragment(kind, offset, bytes) => OnFragment(field, sink, b, kind, offset, bytes)
      case _ => OnControl(field, sink, b, event)
  }

  function After<S, O>(field: seq<Byte>, sink: Sink<S, O>, events: seq<Event>): (b: Builder<S, O>)
  {
    if events == [] then New(sink)
    else On(field, sink, After(field, sink, events[..|events| - 1]), events[|events| - 1])
  }

  function Seal<S, O>(b: Builder<S, O>): (r: Result<O, Rejection>)
  {
    if b.rejection.Some? then Err(b.rejection.value)
    else if b.state != Finished || !b.fieldSeen || b.output.None? then Err(MissingRequiredField)
    else Ok(b.output.value)
  }

  // The language it recognises

  function Fragments(kind: Kind, chunks: seq<seq<Byte>>): (events: seq<Event>)
    ensures |events| == |chunks|
  {
    if chunks == [] then []
    else
      var n := |chunks| - 1;
      Fragments(kind, chunks[..n]) + [Fragment(kind, |Joined(chunks[..n])|, chunks[n])]
  }

  function NameEvents(name: seq<seq<Byte>>): (events: seq<Event>)
  {
    [ObjectStart, ScalarStart(ObjectName)] + Fragments(ObjectName, name)
  }

  function ValueEvents(name: seq<seq<Byte>>, value: seq<seq<Byte>>): (events: seq<Event>)
  {
    NameEvents(name) + [ScalarEnd(ObjectName), ScalarStart(String)] + Fragments(String, value)
  }

  /** One object holding one string field, its name and value cut into chunks. */
  function Rendering(name: seq<seq<Byte>>, value: seq<seq<Byte>>): (events: seq<Event>)
  {
    ValueEvents(name, value) + [ScalarEnd(String), ObjectEnd]
  }

  /** The history an unrejected builder must have seen. A second name can only end in a rejection. */
  ghost predicate Shape<S, O>(
    field: seq<Byte>, sink: Sink<S, O>, b: Builder<S, O>, events: seq<Event>, name: seq<seq<Byte>>,
    value: seq<seq<Byte>>)
  {
    match b.state
    case Root => events == [] && !b.fieldSeen
    case NameOrEnd => events == [ObjectStart] && !b.fieldSeen
    case Name =>
      b.fieldSeen || (events == NameEvents(name) && b.nameOffset == |Joined(name)| <= U64_MAX &&
                      b.nameMatches == (Joined(name) <= field))
    case Value => events == NameEvents(name) + [ScalarEnd(ObjectName)] && Joined(name) == field && !b.fieldSeen
    case ValueString => Streaming(field, sink, b, events, name, value) && !b.fieldSeen
    case AfterValue => Complete(field, sink, b, events, name, value)
    case Finished => events != [] && events[|events| - 1] == ObjectEnd &&
                     Complete(field, sink, b, events[..|events| - 1], name, value)
  }

  ghost predicate Streaming<S, O>(
    field: seq<Byte>, sink: Sink<S, O>, b: Builder<S, O>, events: seq<Event>, name: seq<seq<Byte>>,
    value: seq<seq<Byte>>)
  {
    && events == ValueEvents(name, value) && Joined(name) == field
    && b.valueOffset == |Joined(value)| <= U64_MAX && FeedAll(sink, value) == Ok(b.value)
  }

  ghost predicate Complete<S, O>(
    field: seq<Byte>, sink: Sink<S, O>, b: Builder<S, O>, events: seq<Event>, name: seq<seq<Byte>>,
    value: seq<seq<Byte>>)
  {
    && events == ValueEvents(name, value) + [ScalarEnd(String)] && Joined(name) == field
    && |Joined(value)| <= U64_MAX && FeedAll(sink, value).Ok?
    && b.fieldSeen && b.output.Some? && sink.finish(FeedAll(sink, value).value) == Ok(b.output.value)
  }

  lemma JoinedSnoc(chunks: seq<seq<Byte>>, bytes: seq<Byte>)
    ensures Joined(chunks + [bytes]) == Joined(chunks) + bytes
    ensures forall kind :: Fragments(kind, chunks + [bytes]) ==
                           Fragments(kind, chunks) + [Fragment(kind, |Joined(chunks)|, bytes)]
  {
    assert (chunks + [bytes])[..|chunks|] == chunks;
  }

  lemma FeedSnoc<S, O>(sink: Sink<S, O>, chunks: seq<seq<Byte>>, bytes: seq<Byte>)
    requires FeedAll(sink, chunks).Ok?
    ensures FeedAll(sink, chunks + [bytes]) == sink.feed(FeedAll(sink, chunks).value, bytes)
  {
    assert (chunks + [bytes])[..|chunks|] == chunks;
  }

  /** Every unrejected builder has seen a well-formed beginning, however it was cut. */
  lemma {:induction false} Trace<S, O>(field: seq<Byte>, sink: Sink<S, O>, events: seq<Event>)
    returns (name: seq<seq<Byte>>, value: seq<seq<Byte>>)
    requires After(field, sink, events).rejection.None?
    ensures Shape(field, sink, After(field, sink, events), events, name, value)
  {
    name, value := [], [];
    if events != [] {
      var n := |events| - 1;
      var b := After(field, sink, events[..n]);
      name, value := Trace(field, sink, events[..n]);
      assert events == events[..n] + [events[n]];
      if b.fieldSeen && b.state == Name {
      } else if events[n].Fragment? {
        name, value := TraceFragment(field, sink, b, events[..n], events[n], name, value);
      } else {
        name, value := TraceControl(field, sink, b, events[..n], events[n], name, value);
      }
    }
  }

  lemma TraceFragment<S, O>(
    field: seq<Byte>, sink: Sink<S, O>, b: Builder<S, O>, events: seq<Event>, event: Event,
    name: seq<seq<Byte>>, value: seq<seq<Byte>>)
    returns (name': seq<seq<Byte>>, value': seq<seq<Byte>>)
    requires event.Fragment? && b.rejection.None? && Shape(field, sink, b, events, name, value)
    requires !(b.fieldSeen && b.state == Name)
    requires On(field, sink, b, event).rejection.None?
    ensures Shape(field, sink, On(field, sink, b, event), events + [event], name', value')
  {
    name', value' := name, value;
    if b.state == Name {
      name' := name + [event.bytes];
      JoinedSnoc(name, event.bytes);
      MatchMore(field, Joined(name), event.bytes);
      assert events + [event] == NameEvents(name');
    } else {
      value' := value + [event.bytes];
      JoinedSnoc(value, event.bytes);
      FeedSnoc(sink, value, event.bytes);
      assert events + [event] == ValueEvents(name, value');
    }
  }

  lemma MatchMore(field: seq<Byte>, text: seq<Byte>, bytes: seq<Byte>)
    ensures text + bytes <= field <==>
            text <= field && |text| + |bytes| <= |field| && field[|text|..|text| + |bytes|] == bytes
  {
  }

  lemma TraceControl<S, O>(
    field: seq<Byte>, sink: Sink<S, O>, b: Builder<S, O>, events: seq<Event>, event: Event,
    name: seq<seq<Byte>>, value: seq<seq<Byte>>)
    returns (name': seq<seq<Byte>>, value': seq<seq<Byte>>)
    requires !event.Fragment? && b.rejection.None? && Shape(field, sink, b, events, name, value)
    requires !(b.fieldSeen && b.state == Name)
    requires On(field, sink, b, event).rejection.None?
    ensures Shape(field, sink, On(field, sink, b, event), events + [event], name', value')
  {
    name', value' := name, value;
    match b.state
    case NameOrEnd =>
      name' := [];
      assert events + [event] == NameEvents([]);
    case Value =>
      value' := [];
      assert events + [event] == ValueEvents(name, []);
    case _ =>
  }

  lemma {:induction false} RunName<S, O>(field: seq<Byte>, sink: Sink<S, O>, name: seq<seq<Byte>>)
    requires |Joined(name)| <= U64_MAX
    ensures var b := After(field, sink, NameEvents(name));
            b == New(sink).(state := Name, nameOffset := |Joined(name)|, nameMatches := Joined(name) <= field)
  {
    if name == [] {
      var events := [ObjectStart, ScalarStart(ObjectName)];
      assert NameEvents(name) == events;
      assert events[..1] == [ObjectStart] && [ObjectStart][..0] == [];
      assert After(field, sink, [ObjectStart]) == New(sink).(state := NameOrEnd);
    } else {
      var n := |name| - 1;
      MatchMore(field, Joined(name[..n]), name[n]);
      RunName(field, sink, name[..n]);
      assert NameEvents(name)[..|NameEvents(name)| - 1] == NameEvents(name[..n]);
    }
  }

  lemma RunNameEnd<S, O>(field: seq<Byte>, sink: Sink<S, O>, name: seq<seq<Byte>>)
    requires Joined(name) == field && |field| <= U64_MAX
    ensures After(field, sink, ValueEvents(name, [])) ==
            New(sink).(state := ValueString, nameOffset := |field|, valueOffset := 0, value := sink.start)
  {
    RunName(field, sink, name);
    var closed := NameEvents(name) + [ScalarEnd(ObjectName)];
    assert closed[..|closed| - 1] == NameEvents(name);
    var events := ValueEvents(name, []);
    assert events == closed + [ScalarStart(String)];
    assert events[..|events| - 1] == closed;
  }

  lemma {:induction false} RunValue<S, O>(
    field: seq<Byte>, sink: Sink<S, O>, name: seq<seq<Byte>>, value: seq<seq<Byte>>)
    requires Joined(name) == field && |field| <= U64_MAX
    requires FeedAll(sink, value).Ok? && |Joined(value)| <= U64_MAX
    ensures After(field, sink, ValueEvents(name, value)) ==
            New(sink).(state := ValueString, nameOffset := |field|, valueOffset := |Joined(value)|,
                       value := FeedAll(sink, value).value)
  {
    var events := ValueEvents(name, value);
    if value == [] {
      RunNameEnd(field, sink, name);
    } else {
      var n := |value| - 1;
      RunValue(field, sink, name, value[..n]);
      assert events[..|events| - 1] == ValueEvents(name, value[..n]);
    }
  }

  /** `events` render the field with a value on which the sink finishes with `output`. */
  ghost predicate Renders<S, O>(
    field: seq<Byte>, sink: Sink<S, O>, events: seq<Event>, output: O, name: seq<seq<Byte>>, value: seq<seq<Byte>>)
  {
    && events == Rendering(name, value) && Joined(name) == field
    && |Joined(value)| <= U64_MAX && FeedAll(sink, value).Ok?
    && sink.finish(FeedAll(sink, value).value) == Ok(output)
  }

  lemma AcceptedRenders<S, O>(field: seq<Byte>, sink: Sink<S, O>, events: seq<Event>, output: O)
    returns (name: seq<seq<Byte>>, value: seq<seq<Byte>>)
    requires Seal(After(field, sink, events)) == Ok(output)
    ensures Renders(field, sink, events, output, name, value)
  {
    name, value := Trace(field, sink, events);
    assert events == events[..|events| - 1] + [ObjectEnd];
    assert events == Rendering(name, value);
  }

  lemma RenderedAccepts<S, O>(
    field: seq<Byte>, sink: Sink<S, O>, events: seq<Event>, output: O, name: seq<seq<Byte>>, value: seq<seq<Byte>>)
    requires |field| <= U64_MAX && Renders(field, sink, events, output, name, value)
    ensures Seal(After(field, sink, events)) == Ok(output)
  {
    RunValue(field, sink, name, value);
    var closed := ValueEvents(name, value) + [ScalarEnd(String)];
    assert closed[..|closed| - 1] == ValueEvents(name, value);
    assert events == closed + [ObjectEnd];
    assert events[..|events| - 1] == closed;
  }

  /** The builder accepts exactly the renderings of its field with a value its sink accepts, and yields what
      the sink yields: acceptance does not depend on where the name or the value was cut. */
  lemma Recognises<S, O>(field: seq<Byte>, sink: Sink<S, O>, events: seq<Event>, output: O)
    requires |field| <= U64_MAX
    ensures Seal(After(field, sink, events)) == Ok(output) <==>
            exists name, value :: Renders(field, sink, events, output, name, value)
  {
    if Seal(After(field, sink, events)) == Ok(output) {
      var name, value := AcceptedRenders(field, sink, events, output);
    }
    forall name, value | Renders(field, sink, events, output, name, value)
      ensures Seal(After(field, sink, events)) == Ok(output)
    {
      RenderedAccepts(field, sink, events, output, name, value);
    }
  }

  // Why events are rejected

  lemma {:induction false} RejectedForGood<S, O>(
    field: seq<Byte>, sink: Sink<S, O>, events: seq<Event>, more: seq<Event>)
    requires After(field, sink, events).rejection.Some?
    ensures After(field, sink, events + more) == After(field, sink, events)
  {
    if more == [] {
      assert events + more == events;
    } else {
      var n := |more| - 1;
      RejectedForGood(field, sink, events, more[..n]);
      assert (events + more)[..|events + more| - 1] == events + more[..n];
    }
  }

  lemma OnMore<S, O>(field: seq<Byte>, sink: Sink<S, O>, events: seq<Event>, event: Event)
    ensures After(field, sink, events + [event]) == On(field, sink, After(field, sink, events), event)
  {
    assert (events + [event])[..|events|] == events;
  }

  /** Whatever follows: anything but an object is no root, and an object without a field misses it. */
  lemma WrongRoot<S, O>(field: seq<Byte>, sink: Sink<S, O>, event: Event, more: seq<Event>)
    requires event != ObjectStart && !event.Fragment?
    ensures Seal(After(field, sink, [event] + more)) == Err(RootMustBeObject)
    ensures Seal(After(field, sink, [ObjectStart, ObjectEnd] + more)) == Err(MissingRequiredField)
  {
    OnMore(field, sink, [], event);
    assert [] + [event] == [event];
    RejectedForGood(field, sink, [event], more);
    OnMore(field, sink, [], ObjectStart);
    assert [] + [ObjectStart] == [ObjectStart];
    OnMore(field, sink, [ObjectStart], ObjectEnd);
    assert [ObjectStart] + [ObjectEnd] == [ObjectStart, ObjectEnd];
    RejectedForGood(field, sink, [ObjectStart, ObjectEnd], more);
  }

  /** Any other name is unknown, and the value of the field must be a string. */
  lemma WrongField<S, O>(field: seq<Byte>, sink: Sink<S, O>, name: seq<seq<Byte>>, event: Event, more: seq<Event>)
    requires |Joined(name)| <= U64_MAX && event != ScalarStart(String) && !event.Fragment?
    ensures Seal(After(field, sink, NameEvents(name) + [ScalarEnd(ObjectName)] + [event] + more)) ==
            Err(if Joined(name) == field then WrongValueShape else UnknownField)
  {
    var closed := NameEvents(name) + [ScalarEnd(ObjectName)];
    RunName(field, sink, name);
    OnMore(field, sink, NameEvents(name), ScalarEnd(ObjectName));
    OnMore(field, sink, closed, event);
    RejectedForGood(field, sink, closed + [event], more);
  }

  /** A value that its sink refuses at the end is refused with the sink's reason. */
  lemma WrongText<S, O>(
    field: seq<Byte>, sink: Sink<S, O>, name: seq<seq<Byte>>, value: seq<seq<Byte>>, more: seq<Event>)
    requires Joined(name) == field && |field| <= U64_MAX && FeedAll(sink, value).Ok? && |Joined(value)| <= U64_MAX
    requires sink.finish(FeedAll(sink, value).value).Err?
    ensures Seal(After(field, sink, ValueEvents(name, value) + [ScalarEnd(String)] + more)) ==
            Err(sink.finish(FeedAll(sink, value).value).error)
  {
    RunValue(field, sink, name, value);
    OnMore(field, sink, ValueEvents(name, value), ScalarEnd(String));
    RejectedForGood(field, sink, ValueEvents(name, value) + [ScalarEnd(String)], more);
  }

  lemma {:induction false} RunSecond<S, O>(
    field: seq<Byte>, sink: Sink<S, O>, first: seq<Event>, again: seq<seq<Byte>>)
    requires var b := After(field, sink, first); b.rejection.None? && b.state == AfterValue && b.fieldSeen
    requires |Joined(again)| <= U64_MAX
    ensures After(field, sink, first + [ScalarStart(ObjectName)] + Fragments(ObjectName, again)) ==
            After(field, sink, first).(state := Name, nameOffset := |Joined(again)|,
                                       nameMatches := Joined(again) <= field)
  {
    var start := first + [ScalarStart(ObjectName)];
    if again == [] {
      OnMore(field, sink, first, ScalarStart(ObjectName));
      assert start + Fragments(ObjectName, again) == start;
    } else {
      var n := |again| - 1;
      RunSecond(field, sink, first, again[..n]);
      MatchMore(field, Joined(again[..n]), again[n]);
      OnMore(field, sink, start + Fragments(ObjectName, again[..n]),
             Fragment(ObjectName, |Joined(again[..n])|, again[n]));
      assert start + Fragments(ObjectName, again) ==
             start + Fragments(ObjectName, again[..n]) + [Fragment(ObjectName, |Joined(again[..n])|, again[n])];
    }
  }

  /** A second field is a duplicate if it has the same name, and unknown otherwise. */
  lemma SecondField<S, O>(
    field: seq<Byte>, sink: Sink<S, O>, name: seq<seq<Byte>>, value: seq<seq<Byte>>, again: seq<seq<Byte>>,
    more: seq<Event>)
    requires Joined(name) == field && |field| <= U64_MAX && FeedAll(sink, value).Ok? && |Joined(value)| <= U64_MAX
    requires sink.finish(FeedAll(sink, value).value).Ok? && |Joined(again)| <= U64_MAX
    ensures Seal(After(field, sink, ValueEvents(name, value) + [ScalarEnd(String)] + [ScalarStart(ObjectName)] +
                                    Fragments(ObjectName, again) + [ScalarEnd(ObjectName)] + more)) ==
            Err(if Joined(again) == field then DuplicateField else UnknownField)
  {
    var first := ValueEvents(name, value) + [ScalarEnd(String)];
    var events := first + [ScalarStart(ObjectName)] + Fragments(ObjectName, again);
    RunValue(field, sink, name, value);
    OnMore(field, sink, ValueEvents(name, value), ScalarEnd(String));
    RunSecond(field, sink, first, again);
    OnMore(field, sink, events, ScalarEnd(ObjectName));
    RejectedForGood(field, sink, events + [ScalarEnd(ObjectName)], more);
  }

  /** A fragment must go on where the one before it ended. */
  lemma WrongOffset<S, O>(
    field: seq<Byte>, sink: Sink<S, O>, name: seq<seq<Byte>>, offset: nat, bytes: seq<Byte>, more: seq<Event>)
    requires |Joined(name)| <= U64_MAX && offset != |Joined(name)|
    ensures Seal(After(field, sink, NameEvents(name) + [Fragment(ObjectName, offset, bytes)] + more)) ==
            Err(InvalidScalarFragment)
  {
    RunName(field, sink, name);
    OnMore(field, sink, NameEvents(name), Fragment(ObjectName, offset, bytes));
    RejectedForGood(field, sink, NameEvents(name) + [Fragment(ObjectName, offset, bytes)], more);
  }

  /** An object that is not closed misses its field, and nothing may follow one that is. */
  lemma Unclosed<S, O>(
    field: seq<Byte>, sink: Sink<S, O>, name: seq<seq<Byte>>, value: seq<seq<Byte>>, event: Event, more: seq<Event>)
    requires Joined(name) == field && |field| <= U64_MAX && FeedAll(sink, value).Ok? && |Joined(value)| <= U64_MAX
    requires sink.finish(FeedAll(sink, value).value).Ok? && !event.Fragment?
    ensures Seal(After(field, sink, ValueEvents(name, value) + [ScalarEnd(String)])) == Err(MissingRequiredField)
    ensures Seal(After(field, sink, ValueEvents(name, value) + [ScalarEnd(String)] + [ObjectEnd] + [event] + more)) ==
            Err(InvalidControlSequence)
  {
    var open := ValueEvents(name, value) + [ScalarEnd(String)];
    RunValue(field, sink, name, value);
    OnMore(field, sink, ValueEvents(name, value), ScalarEnd(String));
    OnMore(field, sink, open, ObjectEnd);
    OnMore(field, sink, open + [ObjectEnd], event);
    RejectedForGood(field, sink, open + [ObjectEnd] + [event], more);
  }
}
