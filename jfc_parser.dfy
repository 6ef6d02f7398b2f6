/**
 * The `.jfc` reader used to generate Java code: a SAX handler that turns
 * the parser's callbacks into an insertion-ordered map from event name to
 * the settings of that event. The XML parsing itself is replaced by the
 * sequence of callbacks it would make.
 */
module JfcParser {
  import opened Wrappers
  import opened JavaLang
  import opened Exceptions
  import opened Setting

  /** One callback of the SAX parser: element start (with its `name` attribute), character data, element end. */
  datatype SaxEvent =
    | ElementStart(qName: string, nameAttribute: JString)
    | CharacterData(text: string)
    | ElementEnd(qName: string)

  // ---------------------------------------------------------------------------
  // The LinkedHashMap from event name to settings, as its entries in order
  // ---------------------------------------------------------------------------

  type Entries = seq<(JString, seq<Setting>)>

  function Keys(m: Entries): (r: seq<JString>)
    ensures |r| == |m| && forall i :: 0 <= i < |m| ==> r[i] == m[i].0
  {
    seq(|m|, i requires 0 <= i < |m| => m[i].0)
  }

  predicate DistinctKeys(m: Entries) {
    forall i, j :: 0 <= i < j < |m| ==> m[i].0 != m[j].0
  }

  /** The position of `key` among the keys, if it is there. */
  function IndexOf(m: Entries, key: JString): (r: Option<nat>)
    ensures r.Some? ==> r.value < |m| && m[r.value].0 == key && forall j :: 0 <= j < r.value ==> m[j].0 != key
    ensures r.None? ==> forall j :: 0 <= j < |m| ==> m[j].0 != key
  {
    if m == [] then None
    else if m[0].0 == key then Some(0)
    else
      match IndexOf(m[1..], key)
      case None => None
      case Some(i) => Some(i + 1)
  }

  /** The first position holding `key` is where `IndexOf` finds it. */
  lemma {:induction false} IndexOfAt(m: Entries, key: JString, i: nat)
    requires i < |m| && m[i].0 == key && forall j :: 0 <= j < i ==> m[j].0 != key
    ensures IndexOf(m, key) == Some(i)
  {
    if i > 0 {
      IndexOfAt(m[1..], key, i - 1);
    }
  }

  /** `get`: the list stored under `key`, if any. */
  function Lookup(m: Entries, key: JString): Option<seq<Setting>> {
    match IndexOf(m, key)
    case None => None
    case Some(i) => Some(m[i].1)
  }

  /**
   * `put`: a key already present keeps its position and gets the new list;
   * a new key goes to the end.
   */
  function Put(m: Entries, key: JString, value: seq<Setting>): (r: Entries)
    ensures IndexOf(m, key).Some? ==> |r| == |m| && forall j :: 0 <= j < |m| ==> r[j].0 == m[j].0
    ensures IndexOf(m, key).None? ==> r == m + [(key, value)]
    ensures Keys(m) <= Keys(r)
  {
    match IndexOf(m, key)
    case Some(i) =>
      var r := m[i := (key, value)];
      assert Keys(r) == Keys(m);
      r
    case None =>
      var r := m + [(key, value)];
      assert Keys(r)[..|m|] == Keys(m);
      r
  }

  /** After `put`, the key maps to the new list and every other key keeps its list. */
  lemma PutLookup(m: Entries, key: JString, value: seq<Setting>, k: JString)
    ensures Lookup(Put(m, key, value), k) == if k == key then Some(value) else Lookup(m, k)
  {
    var r := Put(m, key, value);
    match IndexOf(m, key)
    case Some(i) =>
      if k == key {
        IndexOfAt(r, key, i);
      } else {
        PutKeepsOthers(m, r, k, i);
      }
    case None =>
      if k == key {
        IndexOfAt(r, key, |m|);
      } else {
        PutKeepsOthers(m, r, k, |m|);
      }
  }

  /** A key other than the one written is found where it was, with its list. */
  lemma PutKeepsOthers(m: Entries, r: Entries, k: JString, written: nat)
    requires |m| <= |r| && written < |r| && r[written].0 != k
    requires forall j :: 0 <= j < |m| && j != written ==> r[j] == m[j]
    requires |r| <= |m| + 1 && (|r| == |m| + 1 ==> written == |m|)
    requires written < |m| ==> m[written].0 == r[written].0
    ensures Lookup(r, k) == Lookup(m, k)
  {
    match IndexOf(m, k)
    case Some(p) =>
      IndexOfAt(r, k, p);
    case None =>
      assert forall j :: 0 <= j < |r| ==> r[j].0 != k by {
        forall j | 0 <= j < |r| ensures r[j].0 != k {
          if j != written {
            assert r[j] == m[j];
          }
        }
      }
  }

  /** `put` keeps the keys distinct. */
  lemma PutDistinct(m: Entries, key: JString, value: seq<Setting>)
    ensures DistinctKeys(m) ==> DistinctKeys(Put(m, key, value))
  {
  }

  // ---------------------------------------------------------------------------
  // The handler's state and one callback
  // ---------------------------------------------------------------------------

  /**
   * The handler's fields and its parser's map. `settingValue` is the
   * StringBuilder, `None` once it has been set to null.
   */
  datatype HandlerState = HandlerState(
    eventName: JString,
    settingName: JString,
    settingValue: JString,
    settings: seq<Setting>,
    settingProcessed: bool,
    settingsByEventName: Entries)

  /** A new handler over a parser whose map holds `m`: an empty value buffer and an empty list. */
  function Fresh(m: Entries): HandlerState {
    HandlerState(None, None, Some(""), [], false, m)
  }

  /** In-setting mode always has a value buffer to write to. */
  predicate Consistent(st: HandlerState) {
    st.settingProcessed ==> st.settingValue.Some?
  }

  /** One callback; dereferencing the null value buffer throws NullPointerException. */
  function Step(st: HandlerState, e: SaxEvent): (r: Result<HandlerState, Error>)
    ensures Consistent(st) && r.Success? ==> Consistent(r.value)
    ensures r.Failure? <==> ((e.ElementEnd? && e.qName == "setting") || (e.CharacterData? && st.settingProcessed)) && st.settingValue.None?
    ensures Consistent(st) && e.CharacterData? ==> r.Success?
    ensures r.Success? ==> Keys(st.settingsByEventName) <= Keys(r.value.settingsByEventName)
    ensures r.Success? && DistinctKeys(st.settingsByEventName) ==> DistinctKeys(r.value.settingsByEventName)
  {
    match e
    case ElementStart(qName, nameAttribute) =>
      var named := if qName == "event" then st.(eventName := nameAttribute) else st;
      Success(
        if qName == "setting" then named.(settingProcessed := true, settingName := nameAttribute, settingValue := Some(""))
        else named)
    case CharacterData(text) =>
      if !st.settingProcessed then Success(st)
      else if st.settingValue.None? then Failure(NullPointer(NO_MESSAGE))
      else Success(st.(settingValue := Some(text)))
    case ElementEnd(qName) =>
      if qName == "setting" && st.settingValue.None? then Failure(NullPointer(NO_MESSAGE))
      else
        var closed :=
          if qName == "setting" then
            st.(settings := st.settings + [Setting(st.settingName, st.settingValue)],
                settingName := None, settingValue := None, settingProcessed := false)
          else st;
        PutDistinct(closed.settingsByEventName, closed.eventName, closed.settings);
        Success(
          if qName == "event" then
            closed.(settingsByEventName := Put(closed.settingsByEventName, closed.eventName, closed.settings), settings := [])
          else closed)
  }

  // ---------------------------------------------------------------------------
  // A run of callbacks
  // ---------------------------------------------------------------------------

  /** Where a run of callbacks stops: the last state, and the exception if one was thrown. */
  datatype Replayed = Replayed(state: HandlerState, failure: Option<Error>)

  /** The callbacks one after another, stopping at the first exception. */
  function Replay(st: HandlerState, events: seq<SaxEvent>): (r: Replayed)
    ensures Consistent(st) ==> Consistent(r.state)
    ensures DistinctKeys(st.settingsByEventName) ==> DistinctKeys(r.state.settingsByEventName)
    ensures Keys(st.settingsByEventName) <= Keys(r.state.settingsByEventName)
    decreases |events|
  {
    if events == [] then Replayed(st, None)
    else
      match Step(st, events[0])
      case Failure(err) => Replayed(st, Some(err))
      case Success(next) => Replay(next, events[1..])
  }

  lemma {:induction false} ReplayAppend(st: HandlerState, a: seq<SaxEvent>, b: seq<SaxEvent>)
    ensures Replay(st, a + b) ==
      (var first := Replay(st, a); if first.failure.Some? then first else Replay(first.state, b))
    decreases |a|
  {
    if a == [] {
      assert a + b == b;
    } else {
      assert (a + b)[0] == a[0] && (a + b)[1..] == a[1..] + b;
      var step := Step(st, a[0]);
      if step.Success? {
        ReplayAppend(step.value, a[1..], b);
      }
    }
  }

  /** One `characters` callback per chunk of text. */
  function Chunks(texts: seq<string>): (r: seq<SaxEvent>)
    ensures |r| == |texts| && forall i :: 0 <= i < |texts| ==> r[i] == CharacterData(texts[i])
  {
    seq(|texts|, i requires 0 <= i < |texts| => CharacterData(texts[i]))
  }

  /** In a setting, each chunk of character data replaces the value: only the last chunk is kept. */
  lemma {:induction false} LastChunkKept(st: HandlerState, texts: seq<string>)
    requires st.settingProcessed && st.settingValue.Some? && texts != []
    ensures Replay(st, Chunks(texts)) == Replayed(st.(settingValue := Some(texts[|texts| - 1])), None)
    decreases |texts|
  {
    var next := st.(settingValue := Some(texts[0]));
    assert Step(st, Chunks(texts)[0]) == Success(next);
    if |texts| > 1 {
      assert Chunks(texts)[1..] == Chunks(texts[1..]);
      LastChunkKept(next, texts[1..]);
    }
  }

  /** A callback the handler ignores in state `st`: another element, or text outside a setting. */
  predicate Ignored(st: HandlerState, e: SaxEvent) {
    if e.CharacterData? then !st.settingProcessed else e.qName != "event" && e.qName != "setting"
  }

  /** Elements other than `event` and `setting`, and text outside a setting, change nothing. */
  lemma {:induction false} IgnoredEventsChangeNothing(st: HandlerState, events: seq<SaxEvent>)
    requires forall i :: 0 <= i < |events| ==> Ignored(st, events[i])
    ensures Replay(st, events) == Replayed(st, None)
    decreases |events|
  {
    if events != [] {
      assert Step(st, events[0]) == Success(st);
      IgnoredEventsChangeNothing(st, events[1..]);
    }
  }

  /** `<setting name="..">text</setting>`. */
  function SettingEvents(name: JString, text: string): seq<SaxEvent> {
    [ElementStart("setting", name), CharacterData(text), ElementEnd("setting")]
  }

  /** The state after a setting has been closed: the setting appended, out of in-setting mode. */
  function Closed(st: HandlerState, added: seq<Setting>): HandlerState {
    st.(settings := st.settings + added, settingName := None, settingValue := None, settingProcessed := false)
  }

  /** A setting is appended with its name and text, whatever state it starts in. */
  lemma SettingRecorded(st: HandlerState, name: JString, text: string)
    ensures Replay(st, SettingEvents(name, text)) == Replayed(Closed(st, [Setting(name, Some(text))]), None)
  {
    var events := SettingEvents(name, text);
    var open := st.(settingProcessed := true, settingName := name, settingValue := Some(""));
    var filled := open.(settingValue := Some(text));
    var closed := Closed(st, [Setting(name, Some(text))]);
    assert Step(st, events[0]) == Success(open);
    assert Step(open, events[1]) == Success(filled);
    assert Step(filled, events[2]) == Success(closed);
    assert events[1..][0] == events[1] && events[1..][1..] == events[2..];
    assert events[2..][0] == events[2] && events[2..][1..] == [];
    assert Replay(closed, []) == Replayed(closed, None);
    assert Replay(filled, events[2..]) == Replayed(closed, None);
    assert Replay(open, events[1..]) == Replayed(closed, None);
  }

  /** A setting without text gets the empty value. */
  lemma EmptySettingRecorded(st: HandlerState, name: JString)
    ensures Replay(st, [ElementStart("setting", name), ElementEnd("setting")])
         == Replayed(Closed(st, [Setting(name, Some(""))]), None)
  {
    var events := [ElementStart("setting", name), ElementEnd("setting")];
    var open := st.(settingProcessed := true, settingName := name, settingValue := Some(""));
    var closed := Closed(st, [Setting(name, Some(""))]);
    assert Step(st, events[0]) == Success(open);
    assert Step(open, events[1]) == Success(closed);
    assert events[1..][0] == events[1] && events[1..][1..] == [];
    assert Replay(closed, []) == Replayed(closed, None);
    assert Replay(open, events[1..]) == Replayed(closed, None);
  }

  /** The settings of a `.jfc` event, as (name attribute, text) pairs. */
  type SettingTexts = seq<(JString, string)>

  function SettingsEvents(ss: SettingTexts): seq<SaxEvent> {
    if ss == [] then [] else SettingEvents(ss[0].0, ss[0].1) + SettingsEvents(ss[1..])
  }

  function AsSettings(ss: SettingTexts): (r: seq<Setting>)
    ensures |r| == |ss| && forall i :: 0 <= i < |ss| ==> r[i] == Setting(ss[i].0, Some(ss[i].1))
  {
    seq(|ss|, i requires 0 <= i < |ss| => Setting(ss[i].0, Some(ss[i].1)))
  }

  /** Consecutive settings are appended in document order. */
  lemma {:induction false} SettingsRecorded(st: HandlerState, ss: SettingTexts)
    requires ss != []
    ensures Replay(st, SettingsEvents(ss)) == Replayed(Closed(st, AsSettings(ss)), None)
    decreases |ss|
  {
    var first := Setting(ss[0].0, Some(ss[0].1));
    var after := Closed(st, [first]);
    FirstSettingRecorded(st, ss);
    AsSettingsCons(ss);
    if |ss| == 1 {
      assert SettingsEvents(ss[1..]) == [];
      assert AsSettings(ss[1..]) == [];
      assert [first] + [] == [first];
    } else {
      SettingsRecorded(after, ss[1..]);
      ClosedTwice(st, [first], AsSettings(ss[1..]));
    }
  }

  lemma FirstSettingRecorded(st: HandlerState, ss: SettingTexts)
    requires ss != []
    ensures Replay(st, SettingsEvents(ss)) == Replay(Closed(st, [Setting(ss[0].0, Some(ss[0].1))]), SettingsEvents(ss[1..]))
  {
    ReplayAppend(st, SettingEvents(ss[0].0, ss[0].1), SettingsEvents(ss[1..]));
    SettingRecorded(st, ss[0].0, ss[0].1);
  }

  lemma AsSettingsCons(ss: SettingTexts)
    requires ss != []
    ensures AsSettings(ss) == [Setting(ss[0].0, Some(ss[0].1))] + AsSettings(ss[1..])
  {
  }

  lemma ClosedTwice(st: HandlerState, a: seq<Setting>, b: seq<Setting>)
    ensures Closed(Closed(st, a), b) == Closed(st, a + b)
  {
    assert st.settings + a + b == st.settings + (a + b);
  }

  /** `<event name="..">` with its settings and `</event>`. */
  function EventEvents(name: JString, ss: SettingTexts): seq<SaxEvent> {
    [ElementStart("event", name)] + SettingsEvents(ss) + [ElementEnd("event")]
  }

  /**
   * The end of an event stores under its name every setting closed since the
   * previous event end, and starts an empty list.
   */
  lemma EventRecorded(st: HandlerState, name: JString, ss: SettingTexts)
    ensures var r := Replay(st, EventEvents(name, ss));
      r.failure.None? && r.state.eventName == name && r.state.settings == [] &&
      r.state.settingsByEventName == Put(st.settingsByEventName, name, st.settings + AsSettings(ss))
  {
    var named := st.(eventName := name);
    var inside := if ss == [] then named else Closed(named, AsSettings(ss));
    assert inside.settings == st.settings + AsSettings(ss) && inside.eventName == name by {
      if ss == [] {
        assert AsSettings(ss) == [];
        assert st.settings + [] == st.settings;
      }
    }
    assert EventEvents(name, ss) == [ElementStart("event", name)] + (SettingsEvents(ss) + [ElementEnd("event")]);
    EventOpened(st, name, SettingsEvents(ss) + [ElementEnd("event")]);
    SettingsThenEnd(named, ss);
    EventClosed(inside);
  }

  lemma EventOpened(st: HandlerState, name: JString, rest: seq<SaxEvent>)
    ensures Replay(st, [ElementStart("event", name)] + rest) == Replay(st.(eventName := name), rest)
  {
    var events := [ElementStart("event", name)] + rest;
    assert events[0] == ElementStart("event", name) && events[1..] == rest;
    assert Step(st, events[0]) == Success(st.(eventName := name));
  }

  lemma SettingsThenEnd(st: HandlerState, ss: SettingTexts)
    ensures var inside := if ss == [] then st else Closed(st, AsSettings(ss));
      Replay(st, SettingsEvents(ss) + [ElementEnd("event")]) == Replay(inside, [ElementEnd("event")])
  {
    ReplayAppend(st, SettingsEvents(ss), [ElementEnd("event")]);
    if ss == [] {
      assert Replay(st, []) == Replayed(st, None);
    } else {
      SettingsRecorded(st, ss);
    }
  }

  lemma EventClosed(st: HandlerState)
    ensures Replay(st, [ElementEnd("event")])
         == Replayed(st.(settingsByEventName := Put(st.settingsByEventName, st.eventName, st.settings), settings := []), None)
  {
    var events := [ElementEnd("event")];
    assert events[1..] == [];
  }

  /** The events of a `.jfc` file, each with its settings, in document order. */
  type EventTexts = seq<(JString, SettingTexts)>

  function DocumentEvents(doc: EventTexts): seq<SaxEvent>
    decreases |doc|
  {
    if doc == [] then [] else EventEvents(doc[0].0, doc[0].1) + DocumentEvents(doc[1..])
  }

  /** The map after storing each event's settings in turn. */
  function PutAll(m: Entries, doc: EventTexts): Entries
    decreases |doc|
  {
    if doc == [] then m else PutAll(Put(m, doc[0].0, AsSettings(doc[0].1)), doc[1..])
  }

  /** A run of events stores each event's own settings under its name, in document order. */
  lemma {:induction false} DocumentRecorded(st: HandlerState, doc: EventTexts)
    requires st.settings == []
    ensures var r := Replay(st, DocumentEvents(doc));
      r.failure.None? && r.state.settingsByEventName == PutAll(st.settingsByEventName, doc)
    decreases |doc|
  {
    if doc == [] {
      assert Replay(st, []) == Replayed(st, None);
    } else {
      var first := Replay(st, EventEvents(doc[0].0, doc[0].1));
      EventRecorded(st, doc[0].0, doc[0].1);
      assert st.settings + AsSettings(doc[0].1) == AsSettings(doc[0].1);
      ReplayAppend(st, EventEvents(doc[0].0, doc[0].1), DocumentEvents(doc[1..]));
      DocumentRecorded(first.state, doc[1..]);
    }
  }

  // ---------------------------------------------------------------------------
  // The parser and its handler
  // ---------------------------------------------------------------------------

  /** The `.jfc` reader: its source path and the map the handler fills. */
  class JfcParser {
    const sourceFilePath: string
    var settingsByEventName: Entries

    constructor(sourceFilePath: string)
      ensures this.sourceFilePath == sourceFilePath && settingsByEventName == []
    {
      this.sourceFilePath := sourceFilePath;
      settingsByEventName := [];
    }

    /**
     * `parse`: a new handler receives `events`, the callbacks the SAX parser
     * makes for the file, until the first exception, which propagates.
     */
    method Parse(events: seq<SaxEvent>) returns (r: Outcome<Error>)
      modifies this
      ensures var replayed := Replay(Fresh(old(settingsByEventName)), events);
        settingsByEventName == replayed.state.settingsByEventName &&
        r == (if replayed.failure.None? then Pass else Fail(replayed.failure.value))
    {
      var handler := new JfcToMap(this);
      var i := 0;
      while i < |events|
        invariant 0 <= i <= |events|
        invariant handler.jfcParser == this
        invariant Replay(handler.State(), events[i..]) == Replay(Fresh(old(settingsByEventName)), events)
        decreases |events| - i
      {
        ghost var before := handler.State();
        assert events[i..][0] == events[i] && events[i..][1..] == events[i + 1..];
        var outcome: Outcome<Error>;
        match events[i] {
          case ElementStart(qName, nameAttribute) =>
            handler.StartElement(qName, nameAttribute);
            outcome := Pass;
          case CharacterData(text) =>
            outcome := handler.Characters(text);
          case ElementEnd(qName) =>
            outcome := handler.EndElement(qName);
        }
        if outcome.Fail? {
          assert Replay(before, events[i..]) == Replayed(before, Some(outcome.error));
          return outcome;
        }
        assert Replay(before, events[i..]) == Replay(handler.State(), events[i + 1..]);
        i := i + 1;
      }
      r := Pass;
    }
  }

  /** The SAX handler: the fields a run of callbacks updates, and the parser whose map it fills. */
  class JfcToMap {
    var eventName: JString
    var settingName: JString
    var settingValue: JString
    var settings: seq<Setting>
    var settingProcessed: bool
    const jfcParser: JfcParser

    function State(): HandlerState
      reads this, jfcParser
    {
      HandlerState(eventName, settingName, settingValue, settings, settingProcessed, jfcParser.settingsByEventName)
    }

    constructor(jfcParser: JfcParser)
      ensures this.jfcParser == jfcParser && State() == Fresh(jfcParser.settingsByEventName)
    {
      this.jfcParser := jfcParser;
      eventName := None;
      settingName := None;
      settingValue := Some("");
      settings := [];
      settingProcessed := false;
    }

    /** `startElement`. */
    method StartElement(qName: string, nameAttribute: JString)
      modifies this
      ensures Step(old(State()), ElementStart(qName, nameAttribute)) == Success(State())
    {
      if qName == "event" {
        eventName := nameAttribute;
      }
      if qName == "setting" {
        settingProcessed := true;
        settingName := nameAttribute;
        settingValue := Some("");
      }
    }

    /** `characters`: replaces the value buffer's contents in in-setting mode. */
    method Characters(text: string) returns (r: Outcome<Error>)
      modifies this
      ensures Step(old(State()), CharacterData(text)) == if r.Pass? then Success(State()) else Failure(r.error)
      ensures r.Fail? ==> State() == old(State())
    {
      r := Pass;
      if settingProcessed {
        if settingValue.None? {
          return Fail(NullPointer(NO_MESSAGE));
        }
        settingValue := Some(text);
      }
    }

    /** `endElement`: closes a setting, or stores the event's list in the parser's map. */
    method EndElement(qName: string) returns (r: Outcome<Error>)
      modifies this, jfcParser
      ensures Step(old(State()), ElementEnd(qName)) == if r.Pass? then Success(State()) else Failure(r.error)
      ensures r.Fail? ==> State() == old(State())
    {
      r := Pass;
      if qName == "setting" {
        if settingValue.None? {
          return Fail(NullPointer(NO_MESSAGE));
        }
        settings := settings + [Setting(settingName, settingValue)];
        settingName := None;
        settingValue := None;
        settingProcessed := false;
      }
      if qName == "event" {
        jfcParser.settingsByEventName := Put(jfcParser.settingsByEventName, eventName, settings);
        settings := [];
      }
    }
  }
}
