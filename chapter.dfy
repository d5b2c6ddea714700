/**
 * Hotkey assignment of myning/tui/chapter/__init__.py: each menu option but the
 * last may get one lowercase ASCII letter from its label as a hotkey, no letter
 * twice and none of the reserved keys; the letter is underlined in the label.
 *
 * A label element is either a markup string or a rich `Text`; a `Text` is
 * reduced to its plain characters and the positions underlined in it, and
 * `Text.from_markup(s).plain` is the parameter `markup`.
 */
module Chapter {
  import opened Wrappers

  /** `_BASE_HOTKEY_ALIASES`. */
  const BASE_HOTKEY_ALIASES: map<string, string> :=
    map["j" := "down", "k" := "up", "ctrl_d" := "pagedown", "ctrl_u" := "pageup"]

  /** `_BASE_RESERVED_HOTKEYS`. */
  const BASE_RESERVED_HOTKEYS: set<string> := {"j", "k", "q"}

  /** KELVIN SIGN, the one character outside ASCII whose lowercase is an ASCII letter. */
  const KELVIN: char := '\U{212A}'

  /** A hotkey: one lowercase ASCII letter. */
  predicate IsKey(k: string) {
    |k| == 1 && 'a' <= k[0] <= 'z'
  }

  /** `c.lower()` when that lies in `string.ascii_lowercase`, else nothing. */
  function HotkeyOf(c: char): (r: Option<string>)
    ensures r.Some? ==> IsKey(r.value)
    ensures r.Some? <==> 'a' <= c <= 'z' || 'A' <= c <= 'Z' || c == KELVIN
    ensures 'a' <= c <= 'z' ==> r == Some([c])
  {
    if 'a' <= c <= 'z' then Some([c])
    else if 'A' <= c <= 'Z' then Some([(c as int + 32) as char])
    else if c == KELVIN then Some("k")
    else None
  }

  /** The character gives a hotkey that is neither reserved nor taken. */
  predicate Eligible(c: char, reserved: set<string>, hotkeys: map<string, nat>) {
    HotkeyOf(c).Some? && HotkeyOf(c).value !in reserved && HotkeyOf(c).value !in hotkeys
  }

  /** The hotkey of the first eligible position of `caption` at or after `from`, with that position. */
  function FindHotkey(caption: string, reserved: set<string>, hotkeys: map<string, nat>, from: nat): (r: Option<(string, nat)>)
    requires from <= |caption|
    ensures r.Some? ==>
              && from <= r.value.1 < |caption|
              && Eligible(caption[r.value.1], reserved, hotkeys)
              && HotkeyOf(caption[r.value.1]) == Some(r.value.0)
              && forall j :: from <= j < r.value.1 ==> !Eligible(caption[j], reserved, hotkeys)
    ensures r.None? ==> forall j :: from <= j < |caption| ==> !Eligible(caption[j], reserved, hotkeys)
    decreases |caption| - from
  {
    if from == |caption| then None
    else if Eligible(caption[from], reserved, hotkeys) then Some((HotkeyOf(caption[from]).value, from))
    else FindHotkey(caption, reserved, hotkeys, from + 1)
  }

  /** `get_hotkey(label, hotkeys, reserved_hotkeys)`; `None` is `(None, None)`. */
  method GetHotkey(caption: string, hotkeys: map<string, nat>, reserved: set<string>) returns (r: Option<(string, nat)>)
    ensures r == FindHotkey(caption, reserved, hotkeys, 0)
  {
    for i := 0 to |caption|
      invariant FindHotkey(caption, reserved, hotkeys, 0) == FindHotkey(caption, reserved, hotkeys, i)
    {
      var hotkey := HotkeyOf(caption[i]);
      if hotkey.Some? && hotkey.value !in reserved && hotkey.value !in hotkeys {
        return Some((hotkey.value, i));
      }
    }
    return None;
  }

  /** A rich `Text`: its plain characters and the positions styled "underline". */
  datatype RichText = RichText(plain: string, underlines: seq<nat>)

  datatype Item = Str(s: string) | Txt(t: RichText)

  /** An option's label: one element, or a list of them. */
  datatype Label = One(item: Item) | Many(items: seq<Item>)

  /** The fields of `Option` that hotkey assignment reads and writes. */
  datatype MenuOption = MenuOption(caption: Label, enableHotkeys: bool)

  /** The label as a list: a single element is wrapped. */
  function Items(l: Label): seq<Item> {
    match l
    case One(item) => [item]
    case Many(items) => items
  }

  predicate IsAsciiLetter(c: char) {
    'a' <= c <= 'z' || 'A' <= c <= 'Z'
  }

  predicate HasAsciiLetter(s: string) {
    exists i :: 0 <= i < |s| && IsAsciiLetter(s[i])
  }

  /** A label element the search may use: a `Text`, or a string with an ASCII letter. */
  predicate Searchable(item: Item) {
    item.Txt? || HasAsciiLetter(item.s)
  }

  /** The first searchable element at or after `from`. */
  function FirstSearchable(items: seq<Item>, from: nat): (r: Option<nat>)
    requires from <= |items|
    ensures r.Some? ==> from <= r.value < |items| && Searchable(items[r.value])
    ensures r.Some? ==> forall j :: from <= j < r.value ==> !Searchable(items[j])
    ensures r.None? ==> forall j :: from <= j < |items| ==> !Searchable(items[j])
    decreases |items| - from
  {
    if from == |items| then None
    else if Searchable(items[from]) then Some(from)
    else FirstSearchable(items, from + 1)
  }

  /** The element as a `Text`: a string goes through `Text.from_markup`. */
  function AsText(item: Item, markup: string -> string): RichText {
    match item
    case Str(s) => RichText(markup(s), [])
    case Txt(t) => t
  }

  /** `text.stylize("underline", at, at + 1)`. */
  function Underline(t: RichText, at: nat): RichText {
    t.(underlines := t.underlines + [at])
  }

  /**
   * `labelled` is `items` with its first searchable element replaced by that
   * element as a `Text`, underlined at a position whose character gives `key`.
   */
  ghost predicate Underlined(items: seq<Item>, labelled: seq<Item>, key: string, markup: string -> string) {
    && FirstSearchable(items, 0).Some?
    && var j := FirstSearchable(items, 0).value;
       var t := AsText(items[j], markup);
       exists at :: 0 <= at < |t.plain| && HotkeyOf(t.plain[at]) == Some(key) && labelled == items[j := Txt(Underline(t, at))]
  }

  /** `at` is the first position of `s` whose character is eligible. */
  predicate FirstEligible(s: string, at: nat, reserved: set<string>, hotkeys: map<string, nat>) {
    && at < |s|
    && Eligible(s[at], reserved, hotkeys)
    && forall i :: 0 <= i < at ==> !Eligible(s[i], reserved, hotkeys)
  }

  /** One option with hotkeys enabled: its new label elements and the hotkey it got, if any. */
  function Assign(items: seq<Item>, reserved: set<string>, hotkeys: map<string, nat>, markup: string -> string): (r: (seq<Item>, Option<string>))
    ensures r.1.None? ==> r.0 == items
    ensures r.1.Some? ==> IsKey(r.1.value) && r.1.value !in reserved && r.1.value !in hotkeys
    ensures r.1.Some? ==> Underlined(items, r.0, r.1.value, markup)
    // without a searchable element nothing is assigned
    ensures FirstSearchable(items, 0).None? ==> r.1.None?
    // otherwise the hotkey is that of the first eligible character of the element,
    // which is the one underlined, and there is none exactly when no character is eligible
    ensures FirstSearchable(items, 0).Some? ==>
              var j := FirstSearchable(items, 0).value;
              var t := AsText(items[j], markup);
              && (r.1.None? <==> forall i :: 0 <= i < |t.plain| ==> !Eligible(t.plain[i], reserved, hotkeys))
              && (r.1.Some? ==> exists at: nat :: FirstEligible(t.plain, at, reserved, hotkeys)
                                        && r.1 == HotkeyOf(t.plain[at])
                                        && r.0 == items[j := Txt(Underline(t, at))])
  {
    match FirstSearchable(items, 0)
    case None => (items, None)
    case Some(j) =>
      var t := AsText(items[j], markup);
      if |t.plain| == 0 then (items, None)
      else
        match FindHotkey(t.plain, reserved, hotkeys, 0)
        case None => (items, None)
        case Some(found) =>
          assert FirstEligible(t.plain, found.1, reserved, hotkeys);
          (items[j := Txt(Underline(t, found.1))], Some(found.0))
  }

  /** In "Axa" the key "a" is taken from the first "A", and that is where the underline goes. */
  lemma AssignUnderlinesFirstLetter(markup: string -> string)
    ensures Assign([Txt(RichText("Axa", []))], {}, map[], markup) == ([Txt(RichText("Axa", [0]))], Some("a"))
  {
    var items := [Txt(RichText("Axa", []))];
    assert FirstSearchable(items, 0) == Some(0);
    assert HotkeyOf('A') == Some("a");
    assert FindHotkey("Axa", {}, map[], 0) == Some(("a", 0));
    var t := AsText(items[0], markup);
    assert Underline(t, 0) == RichText("Axa", [0]);
    assert items[0 := Txt(Underline(t, 0))] == [Txt(RichText("Axa", [0]))];
  }

  /** One turn of the loop of `get_labels_and_hotkeys`. */
  function Labelled(o: MenuOption, reserved: set<string>, hotkeys: map<string, nat>, markup: string -> string): (r: (seq<Item>, Option<string>))
    ensures r.1.Some? ==> o.enableHotkeys
  {
    if o.enableHotkeys then Assign(Items(o.caption), reserved, hotkeys, markup) else (Items(o.caption), None)
  }

  /** The labels and hotkeys after the loop has visited `opts` in order. */
  function Fold(opts: seq<MenuOption>, reserved: set<string>, markup: string -> string): (r: (seq<seq<Item>>, map<string, nat>))
    ensures |r.0| == |opts|
    decreases |opts|
  {
    if opts == [] then ([], map[])
    else
      var n := |opts| - 1;
      var prev := Fold(opts[..n], reserved, markup);
      var step := Labelled(opts[n], reserved, prev.1, markup);
      (prev.0 + [step.0], Extend(prev.1, step.1, n))
  }

  /** The options with hotkeys switched off for the last one. */
  function LastDisabled(opts: seq<MenuOption>): (r: seq<MenuOption>)
    ensures |r| == |opts|
    ensures forall i :: 0 <= i < |opts| ==> r[i].caption == opts[i].caption
    ensures forall i :: 0 <= i < |opts| ==> r[i].enableHotkeys == (opts[i].enableHotkeys && i != |opts| - 1)
  {
    if opts == [] then [] else opts[|opts| - 1 := opts[|opts| - 1].(enableHotkeys := false)]
  }

  /** `get_labels_and_hotkeys(options, reserved_hotkeys)`: the labels and the hotkey map. */
  function LabelsAndHotkeys(opts: seq<MenuOption>, reserved: set<string>, markup: string -> string): (r: (seq<seq<Item>>, map<string, nat>))
    ensures |r.0| == |opts|
  {
    Fold(LastDisabled(opts), reserved, markup)
  }

  /** The options after the call: hotkeys off for the last, every label a list holding the new elements. */
  function Relabelled(opts: seq<MenuOption>, labels: seq<seq<Item>>): (r: seq<MenuOption>)
    requires |labels| == |opts|
    ensures |r| == |opts|
  {
    seq(|opts|, i requires 0 <= i < |opts| => LastDisabled(opts)[i].(caption := Many(labels[i])))
  }

  /** Every hotkey points at an option with hotkeys enabled. */
  ghost predicate TargetsEnabled(opts: seq<MenuOption>, hotkeys: map<string, nat>) {
    forall k :: k in hotkeys ==> hotkeys[k] < |opts| && opts[hotkeys[k]].enableHotkeys
  }

  /** Every hotkey is a lowercase letter that is not reserved. */
  ghost predicate KeysAllowed(hotkeys: map<string, nat>, reserved: set<string>) {
    forall k :: k in hotkeys ==> IsKey(k) && k !in reserved
  }

  /** No option has two hotkeys. */
  ghost predicate Injective(hotkeys: map<string, nat>) {
    forall k, k' :: k in hotkeys && k' in hotkeys && k != k' ==> hotkeys[k] != hotkeys[k']
  }

  /** An option with a hotkey has its label underlined at it. */
  ghost predicate LabelsUnderlinedAt(opts: seq<MenuOption>, labels: seq<seq<Item>>, hotkeys: map<string, nat>, markup: string -> string)
    requires |labels| == |opts| && TargetsEnabled(opts, hotkeys)
  {
    forall k :: k in hotkeys ==> Underlined(Items(opts[hotkeys[k]].caption), labels[hotkeys[k]], k, markup)
  }

  /** An option without a hotkey keeps its label elements. */
  ghost predicate OthersKept(opts: seq<MenuOption>, labels: seq<seq<Item>>, hotkeys: map<string, nat>)
    requires |labels| == |opts|
  {
    forall i :: 0 <= i < |opts| && i !in hotkeys.Values ==> labels[i] == Items(opts[i].caption)
  }

  /** What holds of the labels and hotkeys after the loop has visited `opts`. */
  ghost predicate Consistent(opts: seq<MenuOption>, labels: seq<seq<Item>>, hotkeys: map<string, nat>,
                             reserved: set<string>, markup: string -> string) {
    && |labels| == |opts|
    && TargetsEnabled(opts, hotkeys)
    && KeysAllowed(hotkeys, reserved)
    && Injective(hotkeys)
    && LabelsUnderlinedAt(opts, labels, hotkeys, markup)
    && OthersKept(opts, labels, hotkeys)
  }

  /** The hotkey map after one more option. */
  function Extend(hotkeys: map<string, nat>, key: Option<string>, index: nat): map<string, nat> {
    if key.Some? then hotkeys[key.value := index] else hotkeys
  }

  lemma ExtendKeeps(hotkeys: map<string, nat>, key: Option<string>, n: nat)
    requires key.Some? ==> key.value !in hotkeys
    ensures forall k :: k in hotkeys ==> k in Extend(hotkeys, key, n) && Extend(hotkeys, key, n)[k] == hotkeys[k]
    ensures forall k :: k in Extend(hotkeys, key, n) && k !in hotkeys ==> key == Some(k) && Extend(hotkeys, key, n)[k] == n
  {
  }

  /** The options holding a hotkey after one more option. */
  lemma ExtendValues(hotkeys: map<string, nat>, key: Option<string>, n: nat, i: nat)
    requires key.Some? ==> key.value !in hotkeys
    ensures i in Extend(hotkeys, key, n).Values <==> i in hotkeys.Values || (key.Some? && i == n)
  {
    var h := Extend(hotkeys, key, n);
    if i in h.Values {
      var k :| k in h && h[k] == i;
      if key != Some(k) {
        assert hotkeys[k] == i;
      }
    }
    if i in hotkeys.Values {
      var k :| k in hotkeys && hotkeys[k] == i;
      assert h[k] == i;
    }
    if key.Some? && i == n {
      assert h[key.value] == n;
    }
  }

  lemma ValuesBelow(hotkeys: map<string, nat>, n: nat)
    requires forall k :: k in hotkeys ==> hotkeys[k] < n
    ensures n !in hotkeys.Values
  {
  }

  lemma StepTargets(init: seq<MenuOption>, o: MenuOption, hotkeys: map<string, nat>, key: Option<string>)
    requires TargetsEnabled(init, hotkeys)
    requires key.Some? ==> key.value !in hotkeys && o.enableHotkeys
    ensures TargetsEnabled(init + [o], Extend(hotkeys, key, |init|))
    ensures forall k :: k in hotkeys ==> (init + [o])[hotkeys[k]] == init[hotkeys[k]]
  {
    ExtendKeeps(hotkeys, key, |init|);
  }

  lemma StepInjective(init: seq<MenuOption>, hotkeys: map<string, nat>, key: Option<string>)
    requires TargetsEnabled(init, hotkeys) && Injective(hotkeys)
    requires key.Some? ==> key.value !in hotkeys
    ensures Injective(Extend(hotkeys, key, |init|))
  {
    ExtendKeeps(hotkeys, key, |init|);
  }

  lemma StepUnderlined(init: seq<MenuOption>, o: MenuOption, labels: seq<seq<Item>>, hotkeys: map<string, nat>,
                       reserved: set<string>, markup: string -> string)
    requires |labels| == |init| && TargetsEnabled(init, hotkeys)
    requires LabelsUnderlinedAt(init, labels, hotkeys, markup)
    ensures var step := Labelled(o, reserved, hotkeys, markup);
            TargetsEnabled(init + [o], Extend(hotkeys, step.1, |init|))
            && LabelsUnderlinedAt(init + [o], labels + [step.0], Extend(hotkeys, step.1, |init|), markup)
  {
    var step := Labelled(o, reserved, hotkeys, markup);
    var opts, labels', hotkeys' := init + [o], labels + [step.0], Extend(hotkeys, step.1, |init|);
    StepTargets(init, o, hotkeys, step.1);
    ExtendKeeps(hotkeys, step.1, |init|);
    forall k | k in hotkeys'
      ensures Underlined(Items(opts[hotkeys'[k]].caption), labels'[hotkeys'[k]], k, markup)
    {
      if k in hotkeys {
        var v := hotkeys[k];
        assert opts[v] == init[v] && labels'[v] == labels[v];
        assert Underlined(Items(init[v].caption), labels[v], k, markup);
      } else {
        assert opts[|init|] == o && labels'[|init|] == step.0;
      }
    }
  }

  lemma StepOthersKept(init: seq<MenuOption>, o: MenuOption, labels: seq<seq<Item>>, hotkeys: map<string, nat>,
                       reserved: set<string>, markup: string -> string)
    requires |labels| == |init| && TargetsEnabled(init, hotkeys)
    requires OthersKept(init, labels, hotkeys)
    ensures var step := Labelled(o, reserved, hotkeys, markup);
            OthersKept(init + [o], labels + [step.0], Extend(hotkeys, step.1, |init|))
  {
    var step := Labelled(o, reserved, hotkeys, markup);
    var n := |init|;
    var opts, labels', hotkeys' := init + [o], labels + [step.0], Extend(hotkeys, step.1, n);
    forall i | 0 <= i < |opts| ensures i !in hotkeys'.Values ==> labels'[i] == Items(opts[i].caption) {
      ExtendValues(hotkeys, step.1, n, i);
      if i < n {
        assert opts[i] == init[i] && labels'[i] == labels[i];
      }
    }
  }

  /** One more option keeps the labels and hotkeys consistent. */
  lemma ConsistentStep(init: seq<MenuOption>, o: MenuOption, labels: seq<seq<Item>>, hotkeys: map<string, nat>,
                       reserved: set<string>, markup: string -> string)
    requires Consistent(init, labels, hotkeys, reserved, markup)
    ensures var step := Labelled(o, reserved, hotkeys, markup);
            Consistent(init + [o], labels + [step.0], Extend(hotkeys, step.1, |init|), reserved, markup)
  {
    var step := Labelled(o, reserved, hotkeys, markup);
    StepTargets(init, o, hotkeys, step.1);
    StepInjective(init, hotkeys, step.1);
    StepUnderlined(init, o, labels, hotkeys, reserved, markup);
    StepOthersKept(init, o, labels, hotkeys, reserved, markup);
    ExtendKeeps(hotkeys, step.1, |init|);
  }

  lemma {:induction false} FoldConsistent(opts: seq<MenuOption>, reserved: set<string>, markup: string -> string)
    ensures Consistent(opts, Fold(opts, reserved, markup).0, Fold(opts, reserved, markup).1, reserved, markup)
    decreases |opts|
  {
    if opts != [] {
      var n := |opts| - 1;
      FoldConsistent(opts[..n], reserved, markup);
      var prev := Fold(opts[..n], reserved, markup);
      ConsistentStep(opts[..n], opts[n], prev.0, prev.1, reserved, markup);
      assert opts[..n] + [opts[n]] == opts;
    }
  }

  /** Every option gets one list of elements, in order; the last option's hotkeys are off. */
  lemma LabelsAndHotkeysShape(opts: seq<MenuOption>, reserved: set<string>, markup: string -> string)
    ensures var r := LabelsAndHotkeys(opts, reserved, markup);
            && |r.0| == |opts|
            && (forall k :: k in r.1 ==> r.1[k] < |opts| - 1 && opts[r.1[k]].enableHotkeys)
  {
    FoldConsistent(LastDisabled(opts), reserved, markup);
  }

  /** The hotkeys are lowercase letters, none reserved, and no option has two. */
  lemma HotkeysDistinct(opts: seq<MenuOption>, reserved: set<string>, markup: string -> string)
    ensures var hotkeys := LabelsAndHotkeys(opts, reserved, markup).1;
            && (forall k :: k in hotkeys ==> IsKey(k) && k !in reserved)
            && (forall k, k' :: k in hotkeys && k' in hotkeys && k != k' ==> hotkeys[k] != hotkeys[k'])
  {
    FoldConsistent(LastDisabled(opts), reserved, markup);
  }

  /**
   * An option with a hotkey has its first searchable element underlined at a
   * character giving that hotkey; every other option keeps its elements.
   */
  lemma LabelsUnderlined(opts: seq<MenuOption>, reserved: set<string>, markup: string -> string)
    ensures var r := LabelsAndHotkeys(opts, reserved, markup);
            && (forall k :: k in r.1 ==> r.1[k] < |opts| && Underlined(Items(opts[r.1[k]].caption), r.0[r.1[k]], k, markup))
            && (forall i :: 0 <= i < |opts| && i !in r.1.Values ==> r.0[i] == Items(opts[i].caption))
  {
    FoldConsistent(LastDisabled(opts), reserved, markup);
  }

  /** The hotkeys given to options before the `i`th. */
  function Taken(hotkeys: map<string, nat>, i: nat): (r: map<string, nat>)
    ensures forall k :: k in r <==> k in hotkeys && hotkeys[k] < i
    ensures forall k :: k in r ==> r[k] == hotkeys[k]
  {
    map k | k in hotkeys && hotkeys[k] < i :: hotkeys[k]
  }

  /** What the `i`th turn of the loop found, in terms of the final hotkey map. */
  ghost predicate TurnMatches(opts: seq<MenuOption>, labels: seq<seq<Item>>, hotkeys: map<string, nat>, i: nat,
                              reserved: set<string>, markup: string -> string)
    requires i < |opts| && |labels| == |opts|
  {
    var step := Labelled(opts[i], reserved, Taken(hotkeys, i), markup);
    && labels[i] == step.0
    && (step.1.Some? ==> step.1.value in hotkeys && hotkeys[step.1.value] == i)
    && (step.1.None? ==> i !in hotkeys.Values)
  }

  /** One more option leaves the earlier hotkeys taken as they were. */
  lemma TakenExtend(hotkeys: map<string, nat>, key: Option<string>, n: nat, i: nat)
    requires forall k :: k in hotkeys ==> hotkeys[k] < n
    requires key.Some? ==> key.value !in hotkeys
    requires i <= n
    ensures Taken(Extend(hotkeys, key, n), i) == Taken(hotkeys, i)
    ensures Taken(hotkeys, n) == hotkeys
  {
    ExtendKeeps(hotkeys, key, n);
    var a, b := Taken(Extend(hotkeys, key, n), i), Taken(hotkeys, i);
    assert a.Keys == b.Keys;
    assert Taken(hotkeys, n).Keys == hotkeys.Keys;
  }

  /**
   * The `i`th turn of the loop gives its option exactly what `Labelled` gives
   * it, with the hotkeys of the earlier options taken.
   */
  lemma {:induction false} FoldTurn(opts: seq<MenuOption>, i: nat, reserved: set<string>, markup: string -> string)
    requires i < |opts|
    ensures TurnMatches(opts, Fold(opts, reserved, markup).0, Fold(opts, reserved, markup).1, i, reserved, markup)
    decreases |opts|
  {
    var n := |opts| - 1;
    var init := opts[..n];
    FoldConsistent(init, reserved, markup);
    var prev := Fold(init, reserved, markup);
    var step := Labelled(opts[n], reserved, prev.1, markup);
    var r := Fold(opts, reserved, markup);
    assert r == (prev.0 + [step.0], Extend(prev.1, step.1, n));
    ExtendKeeps(prev.1, step.1, n);
    TakenExtend(prev.1, step.1, n, i);
    if i < n {
      FoldTurn(init, i, reserved, markup);
      assert init[i] == opts[i] && r.0[i] == prev.0[i];
      var s := Labelled(opts[i], reserved, Taken(r.1, i), markup);
      if s.1.None? {
        ExtendValues(prev.1, step.1, n, i);
      }
    } else {
      assert r.0[n] == step.0;
      if step.1.None? {
        assert r.1 == prev.1;
        ValuesBelow(prev.1, n);
      }
    }
  }

  /**
   * `get_labels_and_hotkeys` assigns hotkeys the way `get_hotkey` finds them:
   * an option with hotkeys enabled, other than the last, gets exactly what
   * `Assign` gives it with the hotkeys of the earlier options taken: the first
   * eligible letter of its first searchable element, underlined there, or no
   * hotkey when there is no such letter. The other options keep their elements
   * and get no hotkey.
   */
  lemma LabelsFollowGetHotkey(opts: seq<MenuOption>, reserved: set<string>, markup: string -> string)
    ensures var r := LabelsAndHotkeys(opts, reserved, markup);
            forall i :: 0 <= i < |opts| ==>
              if opts[i].enableHotkeys && i != |opts| - 1 then
                var step := Assign(Items(opts[i].caption), reserved, Taken(r.1, i), markup);
                && r.0[i] == step.0
                && (step.1.Some? ==> step.1.value in r.1 && r.1[step.1.value] == i)
                && (step.1.None? ==> i !in r.1.Values)
              else
                r.0[i] == Items(opts[i].caption) && i !in r.1.Values
  {
    var ds := LastDisabled(opts);
    var r := LabelsAndHotkeys(opts, reserved, markup);
    assert r == Fold(ds, reserved, markup);
    forall i | 0 <= i < |opts|
      ensures var step := Labelled(ds[i], reserved, Taken(r.1, i), markup);
              && r.0[i] == step.0
              && (step.1.Some? ==> step.1.value in r.1 && r.1[step.1.value] == i)
              && (step.1.None? ==> i !in r.1.Values)
    {
      FoldTurn(ds, i, reserved, markup);
    }
  }

  /** `Fold` of one more option. */
  lemma FoldSnoc(opts: seq<MenuOption>, i: nat, reserved: set<string>, markup: string -> string)
    requires i < |opts|
    ensures var prev := Fold(opts[..i], reserved, markup);
            var step := Labelled(opts[i], reserved, prev.1, markup);
            Fold(opts[..i + 1], reserved, markup) == (prev.0 + [step.0], Extend(prev.1, step.1, i))
  {
    assert opts[..i + 1][..i] == opts[..i];
  }

  /** The inner `for` loop of `get_labels_and_hotkeys`: the first searchable element. */
  method FindSearchable(items: seq<Item>) returns (r: Option<nat>)
    ensures r == FirstSearchable(items, 0)
  {
    var k := 0;
    while k < |items|
      invariant 0 <= k <= |items|
      invariant FirstSearchable(items, 0) == FirstSearchable(items, k)
      decreases |items| - k
    {
      if Searchable(items[k]) {
        return Some(k);
      }
      k := k + 1;
    }
    return None;
  }

  /** The body of the loop of `get_labels_and_hotkeys` for one option, once its label is a list. */
  method LabelOption(o: MenuOption, reserved: set<string>, hotkeys: map<string, nat>, markup: string -> string)
      returns (items: seq<Item>, key: Option<string>)
    ensures (items, key) == Labelled(o, reserved, hotkeys, markup)
  {
    items, key := Items(o.caption), None;
    if !o.enableHotkeys {
      return;
    }
    var textIndex := FindSearchable(items);
    if textIndex.Some? {
      var j := textIndex.value;
      var text := AsText(items[j], markup);
      if |text.plain| > 0 {
        var found := GetHotkey(text.plain, hotkeys, reserved);
        if found.Some? {
          key := Some(found.value.0);
          items := items[j := Txt(Underline(text, found.value.1))];
        }
      }
    }
  }

  /**
   * `get_labels_and_hotkeys`: switch off the last option's hotkeys, then visit
   * the options in order, wrapping each label in a list and underlining the
   * hotkey it gets.
   */
  method GetLabelsAndHotkeys(options: array<MenuOption>, reserved: set<string>, markup: string -> string)
      returns (labels: seq<seq<Item>>, hotkeys: map<string, nat>)
    modifies options
    ensures (labels, hotkeys) == LabelsAndHotkeys(old(options[..]), reserved, markup)
    ensures options[..] == Relabelled(old(options[..]), labels)
  {
    var n := options.Length;
    if n > 0 {
      options[n - 1] := options[n - 1].(enableHotkeys := false);
    }
    ghost var opts := options[..];
    assert opts == LastDisabled(old(options[..]));
    labels, hotkeys := [], map[];
    for i := 0 to n
      invariant |labels| == i
      invariant (labels, hotkeys) == Fold(opts[..i], reserved, markup)
      invariant forall j :: 0 <= j < i ==> options[j] == opts[j].(caption := Many(labels[j]))
      invariant forall j :: i <= j < n ==> options[j] == opts[j]
    {
      FoldSnoc(opts, i, reserved, markup);
      var items, key := LabelOption(options[i], reserved, hotkeys, markup);
      options[i] := options[i].(caption := Many(items));
      if key.Some? {
        hotkeys := hotkeys[key.value := i];
      }
      labels := labels + [items];
    }
    assert opts[..n] == opts;
  }

  /** The keys `_sync_hotkey_overrides` leaves reserved, given the mounted key handler's aliases. */
  function Reserved(handler: Option<map<string, string>>): (r: set<string>)
    ensures forall k :: k in r <==> k in BASE_RESERVED_HOTKEYS || (handler.Some? && k in handler.value)
  {
    if handler.Some? then BASE_RESERVED_HOTKEYS + handler.value.Keys else BASE_RESERVED_HOTKEYS
  }

  /** The aliases `_sync_hotkey_overrides` leaves: the base ones, overridden by the handler's. */
  function Aliases(handler: Option<map<string, string>>): (r: map<string, string>)
    ensures handler.None? ==> r == BASE_HOTKEY_ALIASES
    ensures handler.Some? ==> r.Keys == BASE_HOTKEY_ALIASES.Keys + handler.value.Keys
    ensures handler.Some? ==> forall k :: k in handler.value ==> r[k] == handler.value[k]
    ensures handler.Some? ==> forall k :: k in BASE_HOTKEY_ALIASES && k !in handler.value ==> r[k] == BASE_HOTKEY_ALIASES[k]
  {
    if handler.Some? then BASE_HOTKEY_ALIASES + handler.value else BASE_HOTKEY_ALIASES
  }

  /**
   * A key press is looked up in the aliases before the hotkeys, so a hotkey
   * that is also an alias key could never be chosen; the reserved set rules
   * that out.
   */
  lemma HotkeysAvoidAliases(opts: seq<MenuOption>, handler: Option<map<string, string>>, markup: string -> string)
    ensures forall k :: k in LabelsAndHotkeys(opts, Reserved(handler), markup).1 ==> k !in Aliases(handler)
  {
    HotkeysDistinct(opts, Reserved(handler), markup);
    assert |"ctrl_d"| != 1 && |"ctrl_u"| != 1;
  }

  class ChapterWidget {
    var hotkeys: map<string, nat>
    var hotkeyAliases: map<string, string>
    var reservedHotkeys: set<string>

    constructor ()
      ensures hotkeys == map[] && hotkeyAliases == BASE_HOTKEY_ALIASES && reservedHotkeys == BASE_RESERVED_HOTKEYS
    {
      hotkeys := map[];
      hotkeyAliases := BASE_HOTKEY_ALIASES;
      reservedHotkeys := BASE_RESERVED_HOTKEYS;
    }

    /** `_sync_hotkey_overrides`, given the aliases of the first child that handles keys, if any. */
    method SyncHotkeyOverrides(handler: Option<map<string, string>>)
      modifies this
      ensures hotkeyAliases == Aliases(handler) && reservedHotkeys == Reserved(handler)
      ensures hotkeys == old(hotkeys)
    {
      hotkeyAliases := BASE_HOTKEY_ALIASES;
      reservedHotkeys := BASE_RESERVED_HOTKEYS;
      if handler.Some? {
        hotkeyAliases := hotkeyAliases + handler.value;
        reservedHotkeys := reservedHotkeys + handler.value.Keys;
      }
    }

    /** The hotkey part of `pick`: sync the overrides, label the options, keep the hotkeys. */
    method PickHotkeys(options: array<MenuOption>, handler: Option<map<string, string>>, markup: string -> string)
        returns (labels: seq<seq<Item>>)
      modifies this, options
      ensures hotkeyAliases == Aliases(handler) && reservedHotkeys == Reserved(handler)
      ensures (labels, hotkeys) == LabelsAndHotkeys(old(options[..]), Reserved(handler), markup)
      ensures options[..] == Relabelled(old(options[..]), labels)
    {
      SyncHotkeyOverrides(handler);
      var newHotkeys;
      labels, newHotkeys := GetLabelsAndHotkeys(options, reservedHotkeys, markup);
      hotkeys := newHotkeys;
    }
  }
}
