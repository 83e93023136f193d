/** The command payloads of the remote control client and the wire protocol
    they are meant to follow.

    Each builder writes its dict display as the sequence of its entries, in
    source order, and `Dicts.FromEntries` applies Python's rule that a later
    duplicate key overwrites an earlier one. The wire protocol the server
    expects (the `action` field naming the event kind, plus kind-specific
    fields) is given independently by `Parse`; the builders are checked
    against it.
 */
module Protocol {
  import opened Dicts

  /** A JSON value as the payloads use them: a string or an integer. */
  datatype Value = Str(s: string) | Int(n: int)

  /** One command dictionary, before `json.dumps`. */
  type Payload = map<string, Value>

  // ---------------------------------------------------------------------
  // The five builders, as written

  /** `mouse_move(dx, dy)`: `{'action': 'mouse_move', 'dx': dx, 'dy': dy}`. */
  function MouseMoveCommand(dx: int, dy: int): (p: Payload)
    ensures p.Keys == {"action", "dx", "dy"}
    ensures p["action"] == Str("mouse_move") && p["dx"] == Int(dx) && p["dy"] == Int(dy)
  {
    var entries := [("action", Str("mouse_move")), ("dx", Int(dx)), ("dy", Int(dy))];
    FromEntriesLast(entries, "action", 0);
    FromEntriesLast(entries, "dx", 1);
    FromEntriesLast(entries, "dy", 2);
    FromEntries(entries)
  }

  /** `mouse_click(button, action)`: the display has two `'action'` keys, so the
      second one, the click type, replaces `'mouse_click'`. */
  function MouseClickCommand(button: string, action: string): (p: Payload)
    ensures p.Keys == {"action", "button"}
    ensures p["action"] == Str(action) && p["button"] == Str(button)
    ensures p["action"] == Str("mouse_click") <==> action == "mouse_click"
  {
    var entries := [("action", Str("mouse_click")), ("button", Str(button)), ("action", Str(action))];
    FromEntriesLast(entries, "action", 2);
    FromEntriesLast(entries, "button", 1);
    FromEntries(entries)
  }

  /** `mouse_scroll(dx, dy)`: `{'action': 'mouse_scroll', 'dx': dx, 'dy': dy}`. */
  function MouseScrollCommand(dx: int, dy: int): (p: Payload)
    ensures p.Keys == {"action", "dx", "dy"}
    ensures p["action"] == Str("mouse_scroll") && p["dx"] == Int(dx) && p["dy"] == Int(dy)
  {
    var entries := [("action", Str("mouse_scroll")), ("dx", Int(dx)), ("dy", Int(dy))];
    FromEntriesLast(entries, "action", 0);
    FromEntriesLast(entries, "dx", 1);
    FromEntriesLast(entries, "dy", 2);
    FromEntries(entries)
  }

  /** `keyboard_type(text)`: `{'action': 'keyboard', 'text': text}`. */
  function KeyboardTypeCommand(text: string): (p: Payload)
    ensures p.Keys == {"action", "text"}
    ensures p["action"] == Str("keyboard") && p["text"] == Str(text)
  {
    var entries := [("action", Str("keyboard")), ("text", Str(text))];
    FromEntriesLast(entries, "action", 0);
    FromEntriesLast(entries, "text", 1);
    FromEntries(entries)
  }

  /** `keyboard_key(key, action)`: as for clicks, the second `'action'` key, the
      key phase, replaces `'keyboard'`. */
  function KeyboardKeyCommand(key: string, action: string): (p: Payload)
    ensures p.Keys == {"action", "key"}
    ensures p["action"] == Str(action) && p["key"] == Str(key)
    ensures p["action"] == Str("keyboard") <==> action == "keyboard"
  {
    var entries := [("action", Str("keyboard")), ("key", Str(key)), ("action", Str(action))];
    FromEntriesLast(entries, "action", 2);
    FromEntriesLast(entries, "key", 1);
    FromEntries(entries)
  }

  // ---------------------------------------------------------------------
  // The wire protocol: one event per frame, `action` names the kind

  datatype Event =
    | PointerMove(dx: int, dy: int)
    | PointerClick(button: string, phase: string)
    | PointerScroll(dx: int, dy: int)
    | TextInput(text: string)
    | KeyAction(key: string, phase: string)

  function StrField(p: Payload, k: string): Option<string>
  {
    if k in p && p[k].Str? then Some(p[k].s) else None
  }

  function IntField(p: Payload, k: string): Option<int>
  {
    if k in p && p[k].Int? then Some(p[k].n) else None
  }

  /** How a receiver reads a frame: the `action` field selects the event kind
      and the kind's own fields must be present with the right JSON type. */
  function Parse(p: Payload): (e: Option<Event>)
    ensures e.Some? ==> StrField(p, "action").Some?
  {
    var action := StrField(p, "action");
    var dx, dy := IntField(p, "dx"), IntField(p, "dy");
    var button, phase := StrField(p, "button"), StrField(p, "phase");
    var text, key := StrField(p, "text"), StrField(p, "key");
    if action == Some("mouse_move") && dx.Some? && dy.Some? then
      Some(PointerMove(dx.value, dy.value))
    else if action == Some("mouse_click") && button.Some? && phase.Some? then
      Some(PointerClick(button.value, phase.value))
    else if action == Some("mouse_scroll") && dx.Some? && dy.Some? then
      Some(PointerScroll(dx.value, dy.value))
    else if action == Some("keyboard") && text.Some? then
      Some(TextInput(text.value))
    else if action == Some("keyboard") && key.Some? && phase.Some? then
      Some(KeyAction(key.value, phase.value))
    else
      None
  }

  // ---------------------------------------------------------------------
  // The click and key builders as intended: the sub-phase gets a field of
  // its own, `phase`, so that `action` keeps naming the event kind

  function CorrectedMouseClickCommand(button: string, phase: string): (p: Payload)
    ensures p.Keys == {"action", "button", "phase"}
    ensures p["action"] == Str("mouse_click") && p["button"] == Str(button) && p["phase"] == Str(phase)
  {
    var entries := [("action", Str("mouse_click")), ("button", Str(button)), ("phase", Str(phase))];
    FromEntriesLast(entries, "action", 0);
    FromEntriesLast(entries, "button", 1);
    FromEntriesLast(entries, "phase", 2);
    FromEntries(entries)
  }

  function CorrectedKeyboardKeyCommand(key: string, phase: string): (p: Payload)
    ensures p.Keys == {"action", "key", "phase"}
    ensures p["action"] == Str("keyboard") && p["key"] == Str(key) && p["phase"] == Str(phase)
  {
    var entries := [("action", Str("keyboard")), ("key", Str(key)), ("phase", Str(phase))];
    FromEntriesLast(entries, "action", 0);
    FromEntriesLast(entries, "key", 1);
    FromEntriesLast(entries, "phase", 2);
    FromEntries(entries)
  }

  /** The frame each event was meant to produce: the three builders that are
      right as written and the two corrected ones. */
  function IntendedCommand(e: Event): Payload
  {
    match e
    case PointerMove(dx, dy) => MouseMoveCommand(dx, dy)
    case PointerClick(button, phase) => CorrectedMouseClickCommand(button, phase)
    case PointerScroll(dx, dy) => MouseScrollCommand(dx, dy)
    case TextInput(text) => KeyboardTypeCommand(text)
    case KeyAction(key, phase) => CorrectedKeyboardKeyCommand(key, phase)
  }

  /** Every intended frame parses back to the event it was built from. */
  lemma IntendedRoundTrip(e: Event)
    ensures Parse(IntendedCommand(e)) == Some(e)
  {
    if e.KeyAction? {
      assert "text" !in IntendedCommand(e);
    }
  }

  /** Distinct events give distinct frames. */
  lemma IntendedInjective(e1: Event, e2: Event)
    requires IntendedCommand(e1) == IntendedCommand(e2)
    ensures e1 == e2
  {
    IntendedRoundTrip(e1);
    IntendedRoundTrip(e2);
  }

  /** The movement, scroll and typing builders, read by the independent
      `Parse`, give back the events they were built from. (The three equalities
      with `IntendedCommand` hold by its definition, which uses these builders
      as written.) */
  lemma BuildersAsIntended(dx: int, dy: int, text: string)
    ensures MouseMoveCommand(dx, dy) == IntendedCommand(PointerMove(dx, dy))
    ensures MouseScrollCommand(dx, dy) == IntendedCommand(PointerScroll(dx, dy))
    ensures KeyboardTypeCommand(text) == IntendedCommand(TextInput(text))
    ensures Parse(MouseMoveCommand(dx, dy)) == Some(PointerMove(dx, dy))
    ensures Parse(MouseScrollCommand(dx, dy)) == Some(PointerScroll(dx, dy))
    ensures Parse(KeyboardTypeCommand(text)) == Some(TextInput(text))
  {
    IntendedRoundTrip(PointerMove(dx, dy));
    IntendedRoundTrip(PointerScroll(dx, dy));
    IntendedRoundTrip(TextInput(text));
  }

  /** The click frame as written carries no `mouse_click` action unless the
      click type itself is that string, and no receiver can read it as any
      event: whatever `action` names, the fields that kind needs are missing. */
  lemma ClickCommandUnreadable(button: string, action: string)
    ensures Parse(MouseClickCommand(button, action)) == None
    ensures MouseClickCommand(button, action) != IntendedCommand(PointerClick(button, action))
  {
    var p := MouseClickCommand(button, action);
    assert "phase" !in p && "dx" !in p && "text" !in p && "key" !in p;
    IntendedRoundTrip(PointerClick(button, action));
  }

  /** The key frame as written has lost its `keyboard` action in the same way
      and cannot be read as any event. */
  lemma KeyCommandUnreadable(key: string, action: string)
    ensures Parse(KeyboardKeyCommand(key, action)) == None
    ensures KeyboardKeyCommand(key, action) != IntendedCommand(KeyAction(key, action))
  {
    var p := KeyboardKeyCommand(key, action);
    assert "phase" !in p && "dx" !in p && "text" !in p && "button" !in p;
    IntendedRoundTrip(KeyAction(key, action));
  }

  /** The default arguments of `mouse_click()` and `keyboard_key(k)`: the frames
      sent for a plain left click and a key press name `click` and `press` as
      their action. */
  lemma DefaultArgumentFrames(k: string)
    ensures MouseClickCommand("left", "click")["action"] == Str("click")
    ensures KeyboardKeyCommand(k, "press")["action"] == Str("press")
    ensures Parse(MouseClickCommand("left", "click")) == None
    ensures Parse(KeyboardKeyCommand(k, "press")) == None
  {
    ClickCommandUnreadable("left", "click");
    KeyCommandUnreadable(k, "press");
  }
}
