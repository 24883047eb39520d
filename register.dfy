/** The binding register (src/input/hashed_event_register.rs, and the
    same code in src/input/event_wrapper.rs): a hash map from events to
    callbacks with a wildcard entry. Its keys are `EventWrapper`s, whose
    equality ignores where a mouse event happened and what size a resize
    reports; the map is modelled by the class of keys that equality
    identifies, the `Slot`. */
module EventRegisters {
  import opened Common
  import opened Terminal
  import opened KeyDefs
  import opened MouseDefs
  import opened Inputs

  // ---------------------------------------------------------------------------
  // Keys and their equality
  // ---------------------------------------------------------------------------

  /** `to_ascii_uppercase` on one character. */
  function UpperChar(c: char): char
  {
    if 'a' <= c <= 'z' then c - 'a' + 'A' else c
  }

  /** The form `crossterm` compares and hashes key events in: a capital
      letter is held with Shift, and a letter held with Shift is a
      capital. */
  function NormalizeCase(k: KeyEvent): (r: KeyEvent)
    ensures r.kind == k.kind && r.state == k.state
    ensures !k.code.Char? ==> r == k
  {
    match k.code
    case Char(c) =>
      if 'A' <= c <= 'Z' then k.(modifiers := Union(k.modifiers, SHIFT))
      else if k.modifiers.shift then k.(code := Char(UpperChar(c)))
      else k
    case _ => k
  }

  /** `Event`'s equality: key events compare in normalised form, every
      other event field by field. */
  predicate EventEq(a: Event, b: Event)
  {
    if a.Key? && b.Key? then NormalizeCase(a.key) == NormalizeCase(b.key) else a == b
  }

  /** The key type of the register: a concrete event, or the wildcard. */
  datatype EventWrapper = ExactMatchEvent(ev: Event) | WildEvent

  /** `EventWrapper::eq`, as written: mouse events compare by kind and
      modifiers, all resize events are equal, the wildcard equals only
      itself, and other events use `Event`'s equality. */
  predicate Same(a: EventWrapper, b: EventWrapper)
  {
    match (a, b)
    case (ExactMatchEvent(Mouse(m)), ExactMatchEvent(Mouse(o))) => m.kind == o.kind && m.modifiers == o.modifiers
    case (ExactMatchEvent(Resize(_, _)), ExactMatchEvent(Resize(_, _))) => true
    case (WildEvent, WildEvent) => true
    case (ExactMatchEvent(e), ExactMatchEvent(o)) => EventEq(e, o)
    case _ => false
  }

  /** What `Same` keeps of a key. */
  datatype Slot =
    | MouseSlot(kind: MouseEventKind, modifiers: Modifiers)
    | ResizeSlot
    | WildSlot
    | KeySlot(key: KeyEvent)
    | OtherSlot(ev: Event)

  function SlotOf(w: EventWrapper): Slot
  {
    match w
    case WildEvent => WildSlot
    case ExactMatchEvent(Mouse(m)) => MouseSlot(m.kind, m.modifiers)
    case ExactMatchEvent(Resize(_, _)) => ResizeSlot
    case ExactMatchEvent(Key(k)) => KeySlot(NormalizeCase(k))
    case ExactMatchEvent(e) => OtherSlot(e)
  }

  /** Two keys are equal exactly when they fall in the same slot, so
      `Same` is an equivalence and the register may be modelled as a map
      over slots. */
  lemma SameIsSlotEquality(a: EventWrapper, b: EventWrapper)
    ensures Same(a, b) <==> SlotOf(a) == SlotOf(b)
  {
  }

  lemma SameIsEquivalence(a: EventWrapper, b: EventWrapper, c: EventWrapper)
    ensures Same(a, a)
    ensures Same(a, b) ==> Same(b, a)
    ensures Same(a, b) && Same(b, c) ==> Same(a, c)
  {
    SameIsSlotEquality(a, a);
    SameIsSlotEquality(a, b);
    SameIsSlotEquality(b, a);
    SameIsSlotEquality(b, c);
    SameIsSlotEquality(a, c);
  }

  /** Mouse events bound through a description sit at cell `(0, 0)`, yet
      match the same action anywhere. */
  lemma MousePositionIgnored(m: MouseEvent, column: nat, row: nat)
    ensures Same(ExactMatchEvent(Mouse(m)), ExactMatchEvent(Mouse(m.(column := column, row := row))))
  {
  }

  /** All resize events share the one resize key. */
  lemma ResizesAreSame(c1: nat, r1: nat, c2: nat, r2: nat)
    ensures Same(ExactMatchEvent(Resize(c1, r1)), ExactMatchEvent(Resize(c2, r2)))
  {
  }

  /** `g` with Shift, `G` and `G` with Shift are one key, which is why
      binding `s-g` and `G` covers all three. */
  lemma ShiftedGIsOneKey(kind: KeyEventKind, state: nat)
    ensures var gs := ExactMatchEvent(Key(KeyEvent(Char('g'), SHIFT, kind, state)));
            var cap := ExactMatchEvent(Key(KeyEvent(Char('G'), NONE, kind, state)));
            var caps := ExactMatchEvent(Key(KeyEvent(Char('G'), SHIFT, kind, state)));
            Same(gs, cap) && Same(cap, caps)
    ensures !Same(ExactMatchEvent(Key(KeyEvent(Char('g'), NONE, kind, state))), ExactMatchEvent(Key(KeyEvent(Char('G'), NONE, kind, state))))
  {
  }

  /** What `hash` feeds the hasher: the variant tag, then the mouse
      kind and modifiers, nothing more for a resize or the wildcard, and
      the (normalised) event otherwise. */
  datatype HashItem = Tag(n: nat) | KindItem(kind: MouseEventKind) | ModifiersItem(modifiers: Modifiers) | EventItem(ev: Event)

  function HashFeed(w: EventWrapper): seq<HashItem>
  {
    match w
    case WildEvent => [Tag(1)]
    case ExactMatchEvent(Mouse(m)) => [Tag(0), KindItem(m.kind), ModifiersItem(m.modifiers)]
    case ExactMatchEvent(Resize(_, _)) => [Tag(0)]
    case ExactMatchEvent(Key(k)) => [Tag(0), EventItem(Key(NormalizeCase(k)))]
    case ExactMatchEvent(e) => [Tag(0), EventItem(e)]
  }

  /** Hashing ignores exactly what equality ignores: equal keys hash
      alike, and keys that feed the hasher alike are equal. */
  lemma HashAgreesWithSame(a: EventWrapper, b: EventWrapper)
    ensures Same(a, b) <==> HashFeed(a) == HashFeed(b)
  {
    SameIsSlotEquality(a, b);
    if HashFeed(a) == HashFeed(b) {
      match a
      case WildEvent =>
      case ExactMatchEvent(e) =>
        assert b.ExactMatchEvent?;
        if e.Key? {
          assert HashFeed(b)[1] == EventItem(Key(NormalizeCase(e.key)));
        }
    }
  }

  // ---------------------------------------------------------------------------
  // Callbacks and lookup
  // ---------------------------------------------------------------------------

  /** A registered callback: one of the default ones, or a closure of the
      application, known by a number. */
  datatype Callback = Builtin(action: Action) | Custom(id: nat)

  type Bindings = map<Slot, Callback>

  /** `get`: the callback bound to the event's key, or else the
      wildcard's, or none. */
  function Lookup(b: Bindings, ev: Event): (r: Option<Callback>)
    ensures SlotOf(ExactMatchEvent(ev)) in b ==> r == Some(b[SlotOf(ExactMatchEvent(ev))])
    ensures SlotOf(ExactMatchEvent(ev)) !in b && WildSlot in b ==> r == Some(b[WildSlot])
    ensures r.None? <==> SlotOf(ExactMatchEvent(ev)) !in b && WildSlot !in b
  {
    var s := SlotOf(ExactMatchEvent(ev));
    if s in b then Some(b[s]) else if WildSlot in b then Some(b[WildSlot]) else None
  }

  /** `classify_input`: the looked-up callback applied to the event and
      the state; `custom` stands for the application's closures. */
  function ClassifyIn(b: Bindings, ev: Event, v: View, custom: (nat, Event, View) -> InputEvent): Result<Option<InputEvent>>
  {
    match Lookup(b, ev)
    case None => Ok(None)
    case Some(Builtin(a)) => Found(Run(a, ev, v))
    case Some(Custom(id)) => Ok(Some(custom(id, ev, v)))
  }

  /** An event is never looked up as the wildcard itself: only an
      unbound event falls back to it. */
  lemma EventNeverWild(ev: Event)
    ensures SlotOf(ExactMatchEvent(ev)) != WildSlot
  {
  }

  /** With no binding for the event and no wildcard the register gives
      no reaction; with the wildcard every unbound event reaches it. */
  lemma ClassifyFallsBack(b: Bindings, ev: Event, v: View, custom: (nat, Event, View) -> InputEvent)
    requires SlotOf(ExactMatchEvent(ev)) !in b
    ensures WildSlot !in b ==> ClassifyIn(b, ev, v, custom) == Ok(None)
    ensures WildSlot in b && b[WildSlot] == Builtin(OnWild) ==> ClassifyIn(b, ev, v, custom) == Found(Run(OnWild, ev, v))
  {
  }

  // ---------------------------------------------------------------------------
  // Descriptions
  // ---------------------------------------------------------------------------

  /** Whether descriptions name keys or mouse actions. */
  datatype Device = Keyboard | MouseDevice

  /** The key a description binds: parsed with `parse_key_event` or
      `parse_mouse_event`, which panic on a malformed one. */
  function Parse(dev: Device, d: string): (r: Result<Slot>)
    ensures r.Ok? ==> r.value.KeySlot? || r.value.MouseSlot?
  {
    match dev
    case Keyboard =>
      (match KeyOf(d, SPECIAL_KEYS)
       case Ok(k) => Ok(SlotOf(ExactMatchEvent(Key(k))))
       case Panic => Panic)
    case MouseDevice =>
      (match MouseOf(d, MOUSE_ACTIONS)
       case Ok(m) => Ok(SlotOf(ExactMatchEvent(Mouse(m))))
       case Panic => Panic)
  }

  /** The parser of a device as a value; the loops below are written
      for any parser. */
  function Parser(dev: Device): string -> Result<Slot>
  {
    d => Parse(dev, d)
  }

  /** Whether the first `n` descriptions parse. */
  predicate AllParse(parse: string -> Result<Slot>, descs: seq<string>, n: nat)
  {
    n <= |descs| && forall j :: 0 <= j < n ==> parse(descs[j]).Ok?
  }

  /** The index of the first description that does not parse, or the
      number of descriptions when all do. */
  function FirstFailure(parse: string -> Result<Slot>, descs: seq<string>): (r: nat)
    ensures AllParse(parse, descs, r)
    ensures r < |descs| ==> parse(descs[r]).Panic?
    decreases |descs|
  {
    if descs == [] || parse(descs[0]).Panic? then 0
    else
      var r := 1 + FirstFailure(parse, descs[1..]);
      assert forall i :: 1 <= i < r ==> descs[i] == descs[1..][i - 1];
      r
  }

  /** The keys of the first `n` descriptions, all of which parse. */
  function ParsedSlots(parse: string -> Result<Slot>, descs: seq<string>, n: nat): (r: set<Slot>)
    requires AllParse(parse, descs, n)
  {
    set i | 0 <= i < n :: parse(descs[i]).value
  }

  /** The keys of one more description are those of the ones before and
      its own. */
  lemma ParsedSlotsNext(parse: string -> Result<Slot>, descs: seq<string>, i: nat)
    requires i < |descs| && AllParse(parse, descs, i) && parse(descs[i]).Ok?
    ensures AllParse(parse, descs, i + 1)
    ensures ParsedSlots(parse, descs, i + 1) == ParsedSlots(parse, descs, i) + {parse(descs[i]).value}
  {
    var s := parse(descs[i]).value;
    forall x | x in ParsedSlots(parse, descs, i + 1)
      ensures x in ParsedSlots(parse, descs, i) + {s}
    {
      var j :| 0 <= j < i + 1 && parse(descs[j]).value == x;
      if j < i {
        assert x in ParsedSlots(parse, descs, i);
      }
    }
  }

  /** Descriptions never name the wildcard or the resize key. */
  lemma ParsedNeverWild(dev: Device, descs: seq<string>, n: nat)
    requires AllParse(Parser(dev), descs, n)
    ensures WildSlot !in ParsedSlots(Parser(dev), descs, n)
    ensures ResizeSlot !in ParsedSlots(Parser(dev), descs, n)
  {
  }

  /** `m` with every key of `keys` bound to `cb`. */
  function Bind(m: Bindings, keys: set<Slot>, cb: Callback): (r: Bindings)
    ensures r.Keys == m.Keys + keys
    ensures forall k :: k in keys ==> r[k] == cb
    ensures forall k :: k in m && k !in keys ==> r[k] == m[k]
  {
    map k | k in m.Keys + keys :: if k in keys then cb else m[k]
  }

  /** Binding the key of one more description is a single update. */
  lemma BindStep(m: Bindings, parse: string -> Result<Slot>, descs: seq<string>, i: nat, cb: Callback)
    requires i < |descs| && AllParse(parse, descs, i) && parse(descs[i]).Ok?
    ensures AllParse(parse, descs, i + 1)
    ensures Bind(m, ParsedSlots(parse, descs, i + 1), cb) == Bind(m, ParsedSlots(parse, descs, i), cb)[parse(descs[i]).value := cb]
  {
    ParsedSlotsNext(parse, descs, i);
  }

  /** Unbinding the key of one more description is a single removal. */
  lemma UnbindStep(m: Bindings, parse: string -> Result<Slot>, descs: seq<string>, i: nat)
    requires i < |descs| && AllParse(parse, descs, i) && parse(descs[i]).Ok?
    ensures AllParse(parse, descs, i + 1)
    ensures m - ParsedSlots(parse, descs, i + 1) == (m - ParsedSlots(parse, descs, i)) - {parse(descs[i]).value}
  {
    ParsedSlotsNext(parse, descs, i);
  }

  /** Whether the checked variants refuse to bind `s`, given the keys
      already bound: as written, unless it is bound and `remap` is set;
      corrected, when it is bound and `remap` is not set. */
  predicate Refused(bound: set<Slot>, s: Slot, remap: bool, asWritten: bool)
  {
    if asWritten then !(s in bound && remap) else s in bound && !remap
  }

  /** The index of the first description the checked variant panics on:
      one that does not parse or whose key is refused, counting the keys
      the earlier descriptions of the call bound. */
  function CheckedStop(parse: string -> Result<Slot>, descs: seq<string>, bound: set<Slot>, remap: bool, asWritten: bool): (r: nat)
    ensures AllParse(parse, descs, r)
    decreases |descs|
  {
    if descs == [] then 0
    else
      match parse(descs[0])
      case Panic => 0
      case Ok(s) =>
        if Refused(bound, s, remap, asWritten) then 0
        else
          var r := 1 + CheckedStop(parse, descs[1..], bound + {s}, remap, asWritten);
          assert forall i :: 1 <= i < r ==> descs[i] == descs[1..][i - 1];
          r
  }

  /** How the checked loop goes on from description `i`: it stops there
      when that one does not parse or is refused, and otherwise goes on
      from the next with its key bound. */
  lemma CheckedStopHead(parse: string -> Result<Slot>, descs: seq<string>, i: nat, bound: set<Slot>, remap: bool, asWritten: bool)
    requires i < |descs|
    ensures (parse(descs[i]).Panic? || Refused(bound, parse(descs[i]).value, remap, asWritten))
              ==> CheckedStop(parse, descs[i..], bound, remap, asWritten) == 0
    ensures (parse(descs[i]).Ok? && !Refused(bound, parse(descs[i]).value, remap, asWritten))
              ==> CheckedStop(parse, descs[i..], bound, remap, asWritten)
                  == 1 + CheckedStop(parse, descs[i + 1..], bound + {parse(descs[i]).value}, remap, asWritten)
  {
    assert descs[i..][0] == descs[i];
    assert descs[i..][1..] == descs[i + 1..];
  }

  /** When the first `i` descriptions parse and the next does not (or
      there is none), `i` is the first failure. */
  lemma FirstFailureAt(parse: string -> Result<Slot>, descs: seq<string>, i: nat)
    requires AllParse(parse, descs, i)
    requires i < |descs| ==> parse(descs[i]).Panic?
    ensures FirstFailure(parse, descs) == i
  {
  }

  // ---------------------------------------------------------------------------
  // What the bindings then look up
  // ---------------------------------------------------------------------------

  /** After binding `keys` to `cb`, their events find `cb`, and every
      other event is looked up as before. */
  lemma LookupAfterBind(m: Bindings, keys: set<Slot>, cb: Callback, ev: Event)
    requires WildSlot !in keys
    ensures SlotOf(ExactMatchEvent(ev)) in keys ==> Lookup(Bind(m, keys, cb), ev) == Some(cb)
    ensures SlotOf(ExactMatchEvent(ev)) !in keys ==> Lookup(Bind(m, keys, cb), ev) == Lookup(m, ev)
  {
  }

  /** After unbinding `keys`, their events fall back to the wildcard, and
      every other event is looked up as before. */
  lemma LookupAfterUnbind(m: Bindings, keys: set<Slot>, ev: Event)
    requires WildSlot !in keys
    ensures SlotOf(ExactMatchEvent(ev)) in keys ==>
              Lookup(m - keys, ev) == (if WildSlot in m then Some(m[WildSlot]) else None)
    ensures SlotOf(ExactMatchEvent(ev)) !in keys ==> Lookup(m - keys, ev) == Lookup(m, ev)
  {
  }

  /** Every event equal to the key of a bound description finds the
      callback, wherever the description sits in the list. */
  lemma DescriptionFound(parse: string -> Result<Slot>, descs: seq<string>, n: nat, i: nat, m: Bindings, cb: Callback, ev: Event)
    requires AllParse(parse, descs, n) && i < n
    requires SlotOf(ExactMatchEvent(ev)) == parse(descs[i]).value
    ensures Lookup(Bind(m, ParsedSlots(parse, descs, n), cb), ev) == Some(cb)
  {
    assert parse(descs[i]).value in ParsedSlots(parse, descs, n);
  }

  /** There is one resize key: after `add_resize_event` every resize
      event, whatever its size, finds the new callback, and after
      `remove_resize_event` every one falls back to the wildcard. */
  lemma OneResizeSlot(m: Bindings, cb: Callback, cols: nat, rows: nat)
    ensures Lookup(m[ResizeSlot := cb], Resize(cols, rows)) == Some(cb)
    ensures Lookup(m - {ResizeSlot}, Resize(cols, rows)) == (if WildSlot in m then Some(m[WildSlot]) else None)
  {
  }

  /** `s-g` and `G` describe one key, the capital `G` held with Shift. */
  lemma ShiftGAndCapitalG()
    ensures Parse(Keyboard, "s-g") == Parse(Keyboard, "G") == Ok(KeySlot(Pressed(Char('G'), SHIFT)))
  {
    var key := Pressed(Char('G'), SHIFT);
    assert NormalizeCase(Pressed(Char('g'), SHIFT)) == key;
    assert NormalizeCase(Pressed(Char('G'), NONE)) == key;
    ParseShift();
    assert Parse(Keyboard, "s-g") == Ok(KeySlot(key));
    ParseCapital();
    assert Parse(Keyboard, "G") == Ok(KeySlot(key));
  }

  // ---------------------------------------------------------------------------
  // The checked variants
  // ---------------------------------------------------------------------------

  /** Corrected, with `remap` set, the checked variants refuse nothing:
      they bind what the unchecked ones bind. */
  lemma {:induction false} RemapChecksNothing(parse: string -> Result<Slot>, descs: seq<string>, bound: set<Slot>)
    ensures CheckedStop(parse, descs, bound, true, false) == FirstFailure(parse, descs)
    decreases |descs|
  {
    if descs != [] && parse(descs[0]).Ok? {
      RemapChecksNothing(parse, descs[1..], bound + {parse(descs[0]).value});
    }
  }

  /** Corrected, without `remap`, the checked variants never bind a key
      that was bound before the call. */
  lemma {:induction false} CheckedKeepsBindings(parse: string -> Result<Slot>, descs: seq<string>, bound: set<Slot>)
    ensures forall i :: 0 <= i < CheckedStop(parse, descs, bound, false, false) ==> parse(descs[i]).value !in bound
    decreases |descs|
  {
    var stop := CheckedStop(parse, descs, bound, false, false);
    if stop > 0 {
      var s := parse(descs[0]).value;
      CheckedKeepsBindings(parse, descs[1..], bound + {s});
      forall i | 1 <= i < stop
        ensures parse(descs[i]).value !in bound
      {
        assert descs[i] == descs[1..][i - 1];
      }
    }
  }

  /** Corrected, without `remap`, a key already bound stops the call. */
  lemma CheckedRefusesBound(parse: string -> Result<Slot>, descs: seq<string>, bound: set<Slot>)
    requires descs != [] && parse(descs[0]).Ok? && parse(descs[0]).value in bound
    ensures CheckedStop(parse, descs, bound, false, false) == 0
  {
  }

  /** As written, the checked variants bind only keys that were already
      bound, and without `remap` they bind nothing at all. */
  lemma {:induction false} AsWrittenOnlyRebinds(parse: string -> Result<Slot>, descs: seq<string>, bound: set<Slot>, remap: bool)
    ensures forall i :: 0 <= i < CheckedStop(parse, descs, bound, remap, true) ==> parse(descs[i]).value in bound
    ensures !remap ==> CheckedStop(parse, descs, bound, remap, true) == 0
    decreases |descs|
  {
    var stop := CheckedStop(parse, descs, bound, remap, true);
    if stop > 0 {
      var s := parse(descs[0]).value;
      assert bound + {s} == bound;
      AsWrittenOnlyRebinds(parse, descs[1..], bound, remap);
      forall i | 1 <= i < stop
        ensures parse(descs[i]).value in bound
      {
        assert descs[i] == descs[1..][i - 1];
      }
    }
  }

  /** Hence, as written, a checked call never adds a key to the map. */
  lemma AsWrittenAddsNoKey(m: Bindings, parse: string -> Result<Slot>, descs: seq<string>, cb: Callback, remap: bool)
    ensures var stop := CheckedStop(parse, descs, m.Keys, remap, true);
            Bind(m, ParsedSlots(parse, descs, stop), cb).Keys == m.Keys
  {
    AsWrittenOnlyRebinds(parse, descs, m.Keys, remap);
  }

  /** The description `q` on an empty register with `remap` set shows
      the difference: as written the call panics, corrected it binds
      `q`. */
  lemma CheckedCounterexample()
    ensures CheckedStop(Parser(Keyboard), ["q"], {}, true, true) == 0
    ensures CheckedStop(Parser(Keyboard), ["q"], {}, true, false) == 1
    ensures Parse(Keyboard, "q") == Ok(KeySlot(Pressed(Char('q'), NONE)))
  {
    CharKeyRoundTrip(NONE, 'q', SPECIAL_KEYS);
    assert ModifierPrefix(NONE) + ['q'] == "q";
    assert ["q"][1..] == [];
  }

  // ---------------------------------------------------------------------------
  // The default bindings
  // ---------------------------------------------------------------------------

  /** One `add_key_events` or `add_mouse_events` call of
      `generate_default_bindings`. */
  datatype Group = Group(dev: Device, descs: seq<string>, action: Action)

  /** The calls of `generate_default_bindings`, in order; the search keys
      only with the `search` feature. */
  function DefaultGroups(search: bool): seq<Group>
  {
    [
      Group(Keyboard, ["q", "c-c"], OnQuit),
      Group(Keyboard, ["up", "k"], OnUp),
      Group(Keyboard, ["down", "j"], OnDown),
      Group(Keyboard, ["c-f"], OnFollow),
      Group(Keyboard, ["enter"], OnEnter),
      Group(Keyboard, ["u", "c-u"], OnHalfUp),
      Group(Keyboard, ["d", "c-d"], OnHalfDown),
      Group(Keyboard, ["g"], OnTop),
      Group(Keyboard, ["s-g", "G"], OnBottom),
      Group(Keyboard, ["pageup"], OnPageUp),
      Group(Keyboard, ["pagedown", "space"], OnPageDown),
      Group(Keyboard, ["c-l"], OnLineNumbers)
    ] + (if search then [
      Group(Keyboard, ["/"], OnSearchForward),
      Group(Keyboard, ["?"], OnSearchReverse),
      Group(Keyboard, ["n"], OnNext),
      Group(Keyboard, ["p"], OnPrev)
    ] else []) + [
      Group(MouseDevice, ["scroll:up"], OnScrollUp),
      Group(MouseDevice, ["scroll:down"], OnScrollDown),
      Group(Keyboard, ["c-s-h", "c-h"], OnWrap),
      Group(Keyboard, ["h", "left"], OnLeft),
      Group(Keyboard, ["l", "right"], OnRight)
    ]
  }

  // ---------------------------------------------------------------------------
  // The register
  // ---------------------------------------------------------------------------

  /** `HashedEventRegister`: the bindings, updated in place. */
  class HashedEventRegister {
    var bindings: Bindings

    /** `new`: an empty register. */
    constructor ()
      ensures bindings == map[]
    {
      bindings := map[];
    }

    /** `get`. */
    function Get(ev: Event): (r: Option<Callback>)
      reads this
      ensures r == Lookup(bindings, ev)
    {
      Lookup(bindings, ev)
    }

    /** `classify_input`. */
    function ClassifyInput(ev: Event, v: View, custom: (nat, Event, View) -> InputEvent): (r: Result<Option<InputEvent>>)
      reads this
      ensures r == ClassifyIn(bindings, ev, v, custom)
    {
      ClassifyIn(bindings, ev, v, custom)
    }

    /** `insert_wild_event_matcher`: sets the wildcard. */
    method InsertWildEventMatcher(cb: Callback)
      modifies this
      ensures bindings == old(bindings)[WildSlot := cb]
    {
      bindings := bindings[WildSlot := cb];
    }

    /** `add_resize_event`: fills the one resize key. */
    method AddResizeEvent(cb: Callback)
      modifies this
      ensures bindings == old(bindings)[ResizeSlot := cb]
    {
      bindings := bindings[ResizeSlot := cb];
    }

    /** `remove_resize_event`: empties the resize key. */
    method RemoveResizeEvent()
      modifies this
      ensures bindings == old(bindings) - {ResizeSlot}
    {
      bindings := bindings - {ResizeSlot};
    }

    /** `add_key_events` and `add_mouse_events`: bind every description to
      `cb`, in order. A description that does not parse panics, and the
      earlier ones stay bound. */
    method AddEvents(dev: Device, descs: seq<string>, cb: Callback) returns (panicked: bool)
      modifies this
      ensures var p := Parser(dev);
              (panicked <==> FirstFailure(p, descs) < |descs|) &&
              bindings == Bind(old(bindings), ParsedSlots(p, descs, FirstFailure(p, descs)), cb)
    {
      var r;
      r, panicked := BindDescriptions(bindings, Parser(dev), descs, cb);
      bindings := r;
    }

    /** `remove_key_events` and `remove_mouse_events`: unbind every
      description, in order; a description that does not parse panics. */
    method RemoveEvents(dev: Device, descs: seq<string>) returns (panicked: bool)
      modifies this
      ensures var p := Parser(dev);
              (panicked <==> FirstFailure(p, descs) < |descs|) &&
              bindings == old(bindings) - ParsedSlots(p, descs, FirstFailure(p, descs))
    {
      var r;
      r, panicked := UnbindDescriptions(bindings, Parser(dev), descs);
      bindings := r;
    }

    /** `add_key_events_checked` and `add_mouse_events_checked` as
      written: they panic on a description whose key is not bound yet,
      and on every description when `remap` is not set. */
    method AddEventsCheckedAsWritten(dev: Device, descs: seq<string>, cb: Callback, remap: bool) returns (panicked: bool)
      modifies this
      ensures var stop := CheckedStop(Parser(dev), descs, old(bindings).Keys, remap, true);
              (panicked <==> stop < |descs|) && bindings == Bind(old(bindings), ParsedSlots(Parser(dev), descs, stop), cb)
    {
      var r;
      r, panicked := BindChecked(bindings, Parser(dev), descs, cb, remap, true);
      bindings := r;
    }

    /** The checked variants as documented: they panic on a description
      whose key is already bound, unless `remap` is set. */
    method AddEventsChecked(dev: Device, descs: seq<string>, cb: Callback, remap: bool) returns (panicked: bool)
      modifies this
      ensures var stop := CheckedStop(Parser(dev), descs, old(bindings).Keys, remap, false);
              (panicked <==> stop < |descs|) && bindings == Bind(old(bindings), ParsedSlots(Parser(dev), descs, stop), cb)
    {
      var r;
      r, panicked := BindChecked(bindings, Parser(dev), descs, cb, remap, false);
      bindings := r;
    }

    /** `generate_default_bindings`: the groups of `DefaultGroups`
      inserted in order, then the resize callback and the wildcard. A
      description that does not parse would panic: then `panicked` is set
      and nothing after it is inserted. */
    method GenerateDefaultBindings(search: bool) returns (panicked: bool)
      modifies this
      ensures !panicked ==> ResizeSlot in bindings && bindings[ResizeSlot] == Builtin(OnResize)
      ensures !panicked ==> WildSlot in bindings && bindings[WildSlot] == Builtin(OnWild)
    {
      var groups := DefaultGroups(search);
      for i := 0 to |groups| {
        var g := groups[i];
        panicked := AddEvents(g.dev, g.descs, Builtin(g.action));
        if panicked {
          return;
        }
      }
      AddResizeEvent(Builtin(OnResize));
      InsertWildEventMatcher(Builtin(OnWild));
      panicked := false;
    }
  }

  /** The loop of `add_key_events` and `add_mouse_events` on the bindings
      `m`, with the parser `parse`. */
  method BindDescriptions(m: Bindings, parse: string -> Result<Slot>, descs: seq<string>, cb: Callback) returns (r: Bindings, panicked: bool)
    ensures panicked <==> FirstFailure(parse, descs) < |descs|
    ensures r == Bind(m, ParsedSlots(parse, descs, FirstFailure(parse, descs)), cb)
  {
    r := m;
    var i := 0;
    while i < |descs|
      invariant AllParse(parse, descs, i)
      invariant r == Bind(m, ParsedSlots(parse, descs, i), cb)
    {
      var s := parse(descs[i]);
      if s.Panic? {
        FirstFailureAt(parse, descs, i);
        return r, true;
      }
      BindStep(m, parse, descs, i, cb);
      r := r[s.value := cb];
      i := i + 1;
    }
    FirstFailureAt(parse, descs, i);
    return r, false;
  }

  /** The loop of `remove_key_events` and `remove_mouse_events`. */
  method UnbindDescriptions(m: Bindings, parse: string -> Result<Slot>, descs: seq<string>) returns (r: Bindings, panicked: bool)
    ensures panicked <==> FirstFailure(parse, descs) < |descs|
    ensures r == m - ParsedSlots(parse, descs, FirstFailure(parse, descs))
  {
    r := m;
    var i := 0;
    while i < |descs|
      invariant AllParse(parse, descs, i)
      invariant r == m - ParsedSlots(parse, descs, i)
    {
      var s := parse(descs[i]);
      if s.Panic? {
        FirstFailureAt(parse, descs, i);
        return r, true;
      }
      UnbindStep(m, parse, descs, i);
      r := r - {s.value};
      i := i + 1;
    }
    FirstFailureAt(parse, descs, i);
    return r, false;
  }

  /** The loop of the checked variants, with the test `Refused`. */
  method BindChecked(m: Bindings, parse: string -> Result<Slot>, descs: seq<string>, cb: Callback, remap: bool, asWritten: bool)
    returns (r: Bindings, panicked: bool)
    ensures var stop := CheckedStop(parse, descs, m.Keys, remap, asWritten);
            (panicked <==> stop < |descs|) && r == Bind(m, ParsedSlots(parse, descs, stop), cb)
  {
    ghost var stop := CheckedStop(parse, descs, m.Keys, remap, asWritten);
    r := m;
    var i := 0;
    while i < |descs|
      invariant i <= stop
      invariant AllParse(parse, descs, i)
      invariant r == Bind(m, ParsedSlots(parse, descs, i), cb)
      invariant i + CheckedStop(parse, descs[i..], r.Keys, remap, asWritten) == stop
    {
      var s := parse(descs[i]);
      CheckedStopHead(parse, descs, i, r.Keys, remap, asWritten);
      if s.Panic? || Refused(r.Keys, s.value, remap, asWritten) {
        assert i == stop;
        return r, true;
      }
      BindStep(m, parse, descs, i, cb);
      ghost var bound := r.Keys + {s.value};
      r := r[s.value := cb];
      assert r.Keys == bound;
      i := i + 1;
    }
    assert descs[i..] == [];
    assert i == stop;
    return r, false;
  }
}
