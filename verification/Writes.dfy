// What a write does on every line, whatever arrives: communication.py,
// _write_values.

module Writes {
  import opened Bytes
  import opened Escaping
  import opened Checksums
  import opened Records
  import opened Composition
  import opened Readings
  import opened Conversation
  import opened Jobs
  import opened Zones

  // The only error of a conversation.
  lemma {:induction false} ConversationError(line: Line, t: Talk, at: At)
    requires at.Done? && at.result.Err? ==> at.result.error == ProtocolError
    ensures var r := Run(line, t, at).1.result; r.Err? ==> r.error == ProtocolError
    decreases PollsLeft(at), WritesLeft(at)
  {
    if !at.Done? {
      StepProgresses(line, t, at);
      var (line', at') := Step(line, t, at);
      ConversationError(line', t, at');
    }
  }

  // The conversation a write begins with, and the one it sets the frame in.
  function Fetch(line: Line, items: seq<Item>): (Line, Result<seq<byte>, Error>)
    requires items != []
  {
    Converse(line, Talk(RequestMessage(items[0].record.key.command), false))
  }

  function Deliver(line: Line, u: seq<byte>): (Line, Result<seq<byte>, Error>) {
    Converse(line, Talk(Escape(u), true))
  }

  // The device sends the request message back.
  predicate Echoed(line: Line, items: seq<Item>)
    requires items != []
  {
    Fetch(line, items).1 == Ok(RequestMessage(items[0].record.key.command))
  }

  // It sends something else, into which the values can be composed.
  predicate Composed(line: Line, items: seq<Item>)
    requires items != []
  {
    var r := Fetch(line, items).1;
    r.Ok? && r.value != [] && !Echoed(line, items) && ComposeAll(items, r.value).Ok?
  }

  function SetFrame(line: Line, items: seq<Item>): seq<byte>
    requires items != [] && Composed(line, items)
  {
    ComposeAll(items, Fetch(line, items).1.value).value
  }

  function Response(line: Line, items: seq<Item>): (Line, Result<seq<byte>, Error>)
    requires items != [] && Composed(line, items)
  {
    Deliver(Fetch(line, items).0, SetFrame(line, items))
  }

  predicate AllDecode(f: seq<byte>, items: seq<Item>) {
    forall item :: item in items ==> ParseRecord(f, item.record).Ok?
  }

  // The composed frame is set, the answer passes the header check, and the values
  // can be decoded from the frame.
  predicate Confirmed(line: Line, items: seq<Item>)
    requires items != []
  {
    && Composed(line, items)
    && var r := Response(line, items).1;
       r.Ok? && HeaderCheck(r.value) && AllDecode(SetFrame(line, items), items)
  }

  lemma {:induction false} ParsingDecodes(f: seq<byte>, items: seq<Item>)
    ensures ParseItems(f, items).Ok? <==> AllDecode(f, items)
    ensures ParseItems(f, items).Err? ==> ParseItems(f, items).error == InvalidData
  {
    if items != [] {
      ParsingDecodes(f, Front(items));
      assert items == Front(items) + [Last(items)];
    }
  }

  lemma FirstTalk(line: Line, items: seq<Item>)
    requires items != []
    ensures var (line1, r) := Fetch(line, items);
            Perform(line, WriteJob(items)) ==
            Complete(line1, WriteJob(items), Advance(WriteJob(items), Reading, r), Greet)
  {
    TalkStep(line, WriteJob(items), Reading, GetTalk(items[0].record.key.command));
  }

  // A write whose read brings nothing, or fails, sends no more and reports it; one
  // that is answered with its own request takes the values to be set.
  lemma {:induction false} NothingFetched(line: Line, items: seq<Item>)
    requires items != []
    ensures var (line1, r) := Fetch(line, items);
            && (r.Err? || r.value == [] ==> Perform(line, WriteJob(items)) == (line1, Raised(ProtocolError)))
            && (Echoed(line, items) ==> Perform(line, WriteJob(items)) == (line1, Values([])))
  {
    FirstTalk(line, items);
    var c := items[0].record.key.command;
    ConversationError(line, Talk(RequestMessage(c), false), Greet);
    RequestIsFrame(c);
  }

  // A value out of range, or a frame it does not fit, ends the write there.
  lemma {:induction false} NotComposed(line: Line, items: seq<Item>)
    requires items != []
    ensures var (line1, r) := Fetch(line, items);
            r.Ok? && r.value != [] && !Echoed(line, items) && ComposeAll(items, r.value).Err? ==>
              Perform(line, WriteJob(items)) == (line1, Raised(ComposeAll(items, r.value).error))
  {
    FirstTalk(line, items);
    var r := Fetch(line, items).1;
    if r.Ok? && r.value != [] && !Echoed(line, items) {
      ReadingAdvances(items, r.value);
    }
  }

  // How the answer to the set frame decides.
  ghost predicate Decided(items: seq<Item>, before: seq<byte>, u: seq<byte>, r: Result<seq<byte>, Error>,
                          outcome: Outcome) {
    if r.Err? then outcome == Raised(ProtocolError)
    else if HeaderCheck(r.value) then
      if AllDecode(u, items) then outcome.Values? && ParseItems(u, items) == Ok(outcome.values)
      else outcome == Raised(InvalidData)
    else outcome == Raised(if AllDecode(before, items) then NotConfirmed else InvalidData)
  }

  lemma {:induction false} SettingDecides(line: Line, items: seq<Item>, before: seq<byte>, u: seq<byte>)
    requires items != []
    ensures var (line2, r) := Deliver(line, u);
            var (line', outcome) := Complete(line, WriteJob(items),
                                             Talking(Setting(u, before), Talk(Escape(u), true)), Greet);
            line' == line2 && Decided(items, before, u, r, outcome)
  {
    var t := Talk(Escape(u), true);
    TalkStep(line, WriteJob(items), Setting(u, before), t);
    ConversationError(line, t, Greet);
    ParsingDecodes(u, items);
    ParsingDecodes(before, items);
  }

  // Otherwise the composed frame is set, and the answer decides.
  lemma {:induction false} SetExactly(line: Line, items: seq<Item>)
    requires items != [] && Composed(line, items)
    ensures var (line2, r) := Response(line, items);
            var (line', outcome) := Perform(line, WriteJob(items));
            line' == line2 && Decided(items, Fetch(line, items).1.value, SetFrame(line, items), r, outcome)
  {
    FirstTalk(line, items);
    var (line1, first) := Fetch(line, items);
    ReadingAdvances(items, first.value);
    SettingDecides(line1, items, first.value, SetFrame(line, items));
  }

  // Whatever arrives, a write succeeds in exactly two cases: the request comes
  // back as it was sent, or a frame comes into which the values are composed, it
  // is set, and the answer passes the header check.
  lemma {:induction false} WriteSucceedsExactly(line: Line, items: seq<Item>)
    requires items != []
    ensures Perform(line, WriteJob(items)).1.Values? <==> Echoed(line, items) || Confirmed(line, items)
  {
    NothingFetched(line, items);
    if Composed(line, items) {
      SetExactly(line, items);
    } else {
      NotComposed(line, items);
    }
  }

  // And what it reports of a channel is what the frame that was set holds.
  lemma {:induction false} WriteReports(line: Line, items: seq<Item>, item: Item)
    requires items != [] && item in items && Confirmed(line, items) && Lasting(items, item)
    ensures var outcome, v := Perform(line, WriteJob(items)).1, ParseRecord(SetFrame(line, items), item.record);
            outcome.Values? && v.Ok? && Lookup(outcome.values, item.record.id) == Some(v.value)
  {
    SetExactly(line, items);
    ParsingDecodes(SetFrame(line, items), items);
    ParsedItem(SetFrame(line, items), items, item);
  }

  lemma {:induction false} OnlyItemsParsed(f: seq<byte>, items: seq<Item>, id: string)
    requires ParseItems(f, items).Ok?
    ensures DistinctKeys(ParseItems(f, items).value)
    ensures (forall item :: item in items ==> item.record.id != id) ==> Lookup(ParseItems(f, items).value, id) == None
  {
    if items != [] {
      var last := Last(items);
      assert items == Front(items) + [last];
      var before, v := ParseItems(f, Front(items)).value, ParseRecord(f, last.record).value;
      OnlyItemsParsed(f, Front(items), id);
      PutKeepsDistinct(before, last.record.id, v);
      LookupPut(before, last.record.id, v, id);
      assert last in items;
    }
  }

  // It reports each channel once, and no channel that was not written.
  lemma {:induction false} WriteReportsOnly(line: Line, items: seq<Item>, id: string)
    requires items != []
    ensures var outcome := Perform(line, WriteJob(items)).1;
            outcome.Values? ==>
              && DistinctKeys(outcome.values)
              && ((forall item :: item in items ==> item.record.id != id) ==> Lookup(outcome.values, id) == None)
  {
    NothingFetched(line, items);
    WriteSucceedsExactly(line, items);
    if Confirmed(line, items) {
      SetExactly(line, items);
      ParsingDecodes(SetFrame(line, items), items);
      OnlyItemsParsed(SetFrame(line, items), items, id);
    }
  }
}
