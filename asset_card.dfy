/**
 * What an asset card looks like as a chat embed, and how the bot reads its
 * tracks back from one (TheOracle.GameCore.Assets.Asset, `GetEmbed` and the
 * track part of `FromEmbed`). Everything here works on plain values: the
 * objects of the `Assets` module are turned into an `AssetView` first.
 */
module AssetCards {
  import opened Wrappers
  import opened Games
  import opened Text
  import opened NumericTracks

  /** `Asset.AssetEnabledEmoji`: a backslash, U+23FA and the emoji variation selector. */
  const EnabledEmoji: string := "\\\U{23FA}\U{FE0F}"

  /** `Asset.AssetDisabledEmoji`: a backslash and U+1F7E6. */
  const DisabledEmoji: string := "\\\U{1F7E6}"

  /** `string.Empty.PadLeft(8)`: what an input field shows when no argument is left for it. */
  const Blank: string := "        "

  /**
   * The resource string `AssetResources.UserInputField`, a composite format
   * string with the slots {0} (the input field) and {1} (the user's value):
   * the text before, between and after the two slots.
   */
  datatype Template = Template(prefix: string, middle: string, suffix: string)

  /** `String.Format(UserInputField, field, value)`. */
  function Format(t: Template, field: string, value: string): string {
    t.prefix + field + t.middle + value + t.suffix
  }

  /** `arguments[k]` when there is one, else eight spaces. */
  function UserValue(args: seq<string>, k: nat): string {
    if k < |args| then args[k] else Blank
  }

  // ---------------------------------------------------------------------------
  // Embeds and the values rendered into them

  /** One embed field: its name, its value and whether it is shown inline. */
  datatype EmbedField = EmbedField(name: string, value: string, inline: bool)

  /** The parts of a built embed that `GetEmbed` sets. */
  datatype Embed = Embed(authorName: string, authorIcon: string, title: string, description: string,
                         fields: seq<EmbedField>, footer: string)

  /** An `AssetField`: its text, whether it is enabled, and its input fields (`None` is null). */
  datatype FieldView = FieldView(text: string, enabled: bool, inputFields: Option<seq<string>>)

  /** An `AssetEmbedField` of a multi-field track. */
  datatype TrackItem = TrackItem(name: string, activeText: string, inactiveText: string, isActive: bool)

  /** A `CountingAssetTrack`; a `None` name is a null `Name`. */
  datatype CountingView = CountingView(name: Option<string>, startingValue: Int32)

  /** A `NumericAssetTrack`. */
  datatype NumericView = NumericView(name: string, min: Int32, max: Int32, activeNumber: Int32)

  /**
   * The state of an `Asset` that `GetEmbed` reads. `multiTrack` is `None` when
   * the multi-field track or its field list is null; `counting` and `numeric`
   * are `None` when the track is null.
   */
  datatype AssetView = AssetView(
    assetType: string, iconUrl: string, name: string, description: string, game: GameName,
    inputFields: seq<string>, fields: seq<FieldView>, multiTrack: Option<seq<TrackItem>>,
    counting: Option<CountingView>, numeric: Option<NumericView>)

  // ---------------------------------------------------------------------------
  // The description

  /** One line per top-level input field; the j-th takes argument j. */
  function InputLines(t: Template, inputs: seq<string>, args: seq<string>): string {
    if inputs == [] then ""
    else InputLines(t, inputs[..|inputs| - 1], args) + Format(t, inputs[|inputs| - 1], UserValue(args, |inputs| - 1)) + "\n"
  }

  /** The embed's description: the input lines, a blank line if there were any, then the asset's text. */
  function FullDescription(t: Template, inputs: seq<string>, args: seq<string>, description: string): string {
    var lines := InputLines(t, inputs, args);
    lines + (if |lines| > 0 then "\n" + description else description)
  }

  /**
   * The description is the asset's text alone when there are no input fields,
   * and otherwise the input lines, an empty line and the text.
   */
  lemma DescriptionShape(t: Template, inputs: seq<string>, args: seq<string>, description: string)
    ensures FullDescription(t, inputs, args, description)
         == if inputs == [] then description else InputLines(t, inputs, args) + "\n" + description
  {
    if inputs != [] {
      assert |InputLines(t, inputs, args)| > 0;
    }
  }

  /** The lines of a list of input fields are the lines of its first part followed by the rest. */
  lemma {:induction false} InputLinesPrefix(t: Template, inputs: seq<string>, args: seq<string>, j: nat)
    requires j < |inputs|
    ensures InputLines(t, inputs[..j + 1], args) == InputLines(t, inputs[..j], args) + Format(t, inputs[j], UserValue(args, j)) + "\n"
  {
    assert inputs[..j + 1][..j] == inputs[..j];
  }

  // ---------------------------------------------------------------------------
  // One field per asset field

  /** The input fields an asset field renders (none for a null list). */
  function Items(f: FieldView): seq<string> {
    if f.inputFields.Some? then f.inputFields.value else []
  }

  /** The field's name: the enabled or the disabled emoji. */
  function Label(f: FieldView): string {
    if f.enabled then EnabledEmoji else DisabledEmoji
  }

  /** The label tells exactly whether the asset field is enabled. */
  lemma LabelIff(f: FieldView)
    ensures Label(f) == EnabledEmoji <==> f.enabled
    ensures Label(f) == DisabledEmoji <==> !f.enabled
  {
    assert |EnabledEmoji| != |DisabledEmoji|;
  }

  /** "\n" and a formatted input per item; the m-th item takes argument k + m. */
  function ItemInputs(t: Template, items: seq<string>, args: seq<string>, k: nat): string {
    if items == [] then ""
    else ItemInputs(t, items[..|items| - 1], args, k) + "\n" + Format(t, items[|items| - 1], UserValue(args, k + |items| - 1))
  }

  lemma {:induction false} ItemInputsPrefix(t: Template, items: seq<string>, args: seq<string>, k: nat, m: nat)
    requires m < |items|
    ensures ItemInputs(t, items[..m + 1], args, k) == ItemInputs(t, items[..m], args, k) + "\n" + Format(t, items[m], UserValue(args, k + m))
  {
    assert items[..m + 1][..m] == items[..m];
  }

  /** How many arguments a list of asset fields consumes. */
  function ItemCount(fs: seq<FieldView>): nat {
    if fs == [] then 0 else ItemCount(fs[..|fs| - 1]) + |Items(fs[|fs| - 1])|
  }

  /** The embed field of one asset field whose inputs start at argument k. */
  function FieldEntry(t: Template, f: FieldView, args: seq<string>, k: nat): EmbedField {
    EmbedField(Label(f), f.text + ItemInputs(t, Items(f), args, k), false)
  }

  /**
   * The fields of a list of asset fields whose inputs start at argument k:
   * one per asset field, in order, the i-th taking the arguments that follow
   * those of the fields before it.
   */
  function FieldEntries(t: Template, fs: seq<FieldView>, args: seq<string>, k: nat): seq<EmbedField> {
    seq(|fs|, i requires 0 <= i < |fs| => NthFieldEntry(t, fs, args, k, i))
  }

  /** The field of the i-th asset field, its inputs after those of the fields before it. */
  function NthFieldEntry(t: Template, fs: seq<FieldView>, args: seq<string>, k: nat, i: nat): EmbedField
    requires i < |fs|
  {
    FieldEntry(t, fs[i], args, k + ItemCount(fs[..i]))
  }

  /** A field's entry depends only on the asset fields up to it. */
  lemma NthOfPrefix(t: Template, fs: seq<FieldView>, args: seq<string>, k: nat, n: nat, j: nat)
    requires j < n <= |fs|
    ensures NthFieldEntry(t, fs[..n], args, k, j) == NthFieldEntry(t, fs, args, k, j)
  {
    assert fs[..n][..j] == fs[..j];
  }

  /** One more asset field moves the argument cursor past its inputs. */
  lemma ItemCountPrefix(fs: seq<FieldView>, i: nat)
    requires i < |fs|
    ensures ItemCount(fs[..i + 1]) == ItemCount(fs[..i]) + |Items(fs[i])|
  {
    assert fs[..i + 1][..i] == fs[..i];
  }

  /** The fields of one more asset field: those so far, then its own, its inputs after theirs. */
  lemma FieldEntriesPrefix(t: Template, fs: seq<FieldView>, args: seq<string>, k: nat, i: nat)
    requires i < |fs|
    ensures FieldEntries(t, fs[..i + 1], args, k) == FieldEntries(t, fs[..i], args, k) + [FieldEntry(t, fs[i], args, k + ItemCount(fs[..i]))]
  {
    var a := FieldEntries(t, fs[..i + 1], args, k);
    var b := FieldEntries(t, fs[..i], args, k) + [FieldEntry(t, fs[i], args, k + ItemCount(fs[..i]))];
    forall j | 0 <= j < i + 1
      ensures a[j] == b[j]
    {
      NthOfPrefix(t, fs, args, k, i + 1, j);
      if j < i {
        NthOfPrefix(t, fs, args, k, i, j);
      }
    }
  }

  /** Argument counts only grow along the list of asset fields. */
  lemma {:induction false} ItemCountMonotone(fs: seq<FieldView>, i: nat, j: nat)
    requires i <= j <= |fs|
    ensures ItemCount(fs[..i]) <= ItemCount(fs[..j])
    decreases j - i
  {
    if i < j {
      ItemCountMonotone(fs, i, j - 1);
      assert fs[..j][..j - 1] == fs[..j - 1];
    }
  }

  /**
   * Each argument goes to at most one input: the arguments of asset field i
   * lie before those of every later field j, and the top-level inputs use the
   * arguments before the first asset field's.
   */
  lemma ArgumentsDisjoint(fs: seq<FieldView>, i: nat, j: nat)
    requires i < j < |fs|
    ensures ItemCount(fs[..i]) + |Items(fs[i])| <= ItemCount(fs[..j])
  {
    ItemCountPrefix(fs, i);
    ItemCountMonotone(fs, i + 1, j);
  }

  // ---------------------------------------------------------------------------
  // Multi-field track, counting track, numeric track

  /** One inline field per track item, showing its active or its inactive text. */
  function TrackEntries(items: seq<TrackItem>): seq<EmbedField> {
    if items == [] then []
    else
      var item := items[|items| - 1];
      TrackEntries(items[..|items| - 1]) + [EmbedField(item.name, if item.isActive then item.activeText else item.inactiveText, true)]
  }

  lemma {:induction false} TrackEntriesAt(items: seq<TrackItem>)
    ensures |TrackEntries(items)| == |items|
    ensures forall i :: 0 <= i < |items| ==>
      TrackEntries(items)[i] == EmbedField(items[i].name, if items[i].isActive then items[i].activeText else items[i].inactiveText, true)
  {
    if items != [] {
      var n := |items| - 1;
      TrackEntriesAt(items[..n]);
      assert forall i :: 0 <= i < n ==> items[..n][i] == items[i];
    }
  }

  lemma TrackEntriesPrefix(items: seq<TrackItem>, i: nat)
    requires i < |items|
    ensures TrackEntries(items[..i + 1]) == TrackEntries(items[..i])
      + [EmbedField(items[i].name, if items[i].isActive then items[i].activeText else items[i].inactiveText, true)]
  {
    assert items[..i + 1][..i] == items[..i];
  }

  /** The counting track's field, when it has a name: the starting value in decimal. */
  function CountingEntries(c: Option<CountingView>): seq<EmbedField> {
    if c.Some? && c.value.name.Some? then [EmbedField(c.value.name.value, IntToString(c.value.startingValue as int), false)] else []
  }

  /** One number of the range and the space after it (`$"{i} "`). */
  function Numeral(v: int): string {
    IntToString(v) + " "
  }

  /** "lo lo+1 … hi " : each number followed by a space (empty when hi < lo). */
  function Numbers(lo: int, hi: int): string
    decreases hi - lo
  {
    if hi < lo then "" else Numbers(lo, hi - 1) + Numeral(hi)
  }

  /** How the active number is marked: bold and underlined in Discord markdown. */
  function Bold(v: int): string {
    "__**" + IntToString(v) + "**__"
  }

  /** The numeric track's text: the range, trimmed, with every occurrence of the active number's digits marked. */
  function TrackText(min: int, max: int, active: int): string {
    Replace(Trim(Numbers(min, max)), IntToString(active), Bold(active), Ordinal)
  }

  /** The numeric track's field, unless its bounds are both zero. */
  function NumericEntries(n: Option<NumericView>): seq<EmbedField> {
    if n.Some? && !(n.value.max == 0 && n.value.min == 0)
    then [EmbedField(n.value.name, TrackText(n.value.min as int, n.value.max as int, n.value.activeNumber as int), false)]
    else []
  }

  /** The multi-field track's fields. */
  function MultiEntries(m: Option<seq<TrackItem>>): seq<EmbedField> {
    if m.Some? then TrackEntries(m.value) else []
  }

  /** `GetEmbed(arguments)`. */
  function RenderEmbed(t: Template, a: AssetView, args: seq<string>): Embed {
    Embed(a.assetType, a.iconUrl, a.name, FullDescription(t, a.inputFields, args, a.description),
      FieldEntries(t, a.fields, args, |a.inputFields|) + MultiEntries(a.multiTrack)
        + CountingEntries(a.counting) + NumericEntries(a.numeric),
      GameText(a.game))
  }

  // ---------------------------------------------------------------------------
  // The range of numbers, and the marked active number in it

  lemma Regroup(x: string, y: string, z: string)
    ensures x + y + z == x + (y + z)
  {
  }

  /** A range lo..hi splits around any number a in it. */
  lemma {:induction false} NumbersSplit(lo: int, a: int, hi: int)
    requires lo <= a <= hi
    ensures Numbers(lo, hi) == Numbers(lo, a - 1) + Numeral(a) + Numbers(a + 1, hi)
    decreases hi - a
  {
    if a < hi {
      NumbersSplit(lo, a, hi - 1);
      Regroup(Numbers(lo, a - 1) + Numeral(a), Numbers(a + 1, hi - 1), Numeral(hi));
    } else {
      assert Numbers(a + 1, hi) == "";
    }
  }

  /** A range of non-negative numbers is made of digits and spaces. */
  lemma {:induction false} NumbersChars(lo: int, hi: int)
    requires lo >= 0
    ensures forall k :: 0 <= k < |Numbers(lo, hi)| ==> IsDigit(Numbers(lo, hi)[k]) || Numbers(lo, hi)[k] == ' '
    decreases hi - lo
  {
    if lo <= hi {
      NumbersChars(lo, hi - 1);
      var p, d := Numbers(lo, hi - 1), IntToString(hi);
      IntToStringShape(hi);
      assert Numbers(lo, hi) == p + (d + " ");
      assert forall k :: |p| <= k < |p| + |d| ==> Numbers(lo, hi)[k] == d[k - |p|];
    }
  }

  /** A non-empty range of non-negative numbers starts with a digit and ends with a digit and a space. */
  lemma {:induction false} NumbersEnds(lo: int, hi: int)
    requires 0 <= lo <= hi
    ensures var r := Numbers(lo, hi); |r| >= 2 && IsDigit(r[0]) && IsDigit(r[|r| - 2]) && r[|r| - 1] == ' '
    decreases hi - lo
  {
    var p, d := Numbers(lo, hi - 1), IntToString(hi);
    IntToStringShape(hi);
    if lo < hi {
      NumbersEnds(lo, hi - 1);
    }
    assert Numbers(hi, hi - 1) == "";
    assert Numbers(lo, hi) == p + (d + " ");
    assert (p + (d + " "))[0] == (if p == [] then d[0] else p[0]);
  }

  /** The first marked number: "__**", one or more digits, "**__", leftmost (the regex `__\*\*(\d+)\*\*__`). */
  function BoldHere(s: string): Option<string> {
    if |s| >= 4 && s[..4] == "__**" then
      var ds := LeadingDigits(s[4..]);
      if |ds| > 0 && |s| >= |ds| + 8 && s[|ds| + 4..|ds| + 8] == "**__" then Some(ds) else None
    else None
  }

  function FindBold(s: string): Option<string>
    decreases |s|
  {
    if BoldHere(s).Some? then BoldHere(s) else if s == [] then None else FindBold(s[1..])
  }

  /** The numeric track value read back from a field: the marked digits, 0 when there are none or they overflow. */
  function ParsedNumber(text: string): Int32 {
    match FindBold(text)
    case None => 0
    case Some(ds) =>
      if TryParseInt(ds).Some? then TryParseRange(ds); TryParseInt(ds).value as Int32 else 0
  }

  /** A marked number is found where it was written. */
  lemma BoldHereOf(ds: string, rest: string)
    requires |ds| > 0 && AllDigits(ds)
    ensures BoldHere("__**" + ds + "**__" + rest) == Some(ds)
  {
    var s := "__**" + ds + "**__" + rest;
    assert s[..4] == "__**";
    assert s[4..] == ds + ("**__" + rest);
    LeadingDigitsOf(ds, "**__" + rest);
    assert s[|ds| + 4..|ds| + 8] == "**__";
  }

  /**
   * Marking every occurrence of a number in a text without underscores, in
   * which it occurs, puts a marked copy of that number first.
   */
  lemma {:induction false} FindBoldReplace(text: string, ds: string)
    requires |ds| > 0 && AllDigits(ds)
    requires forall k :: 0 <= k < |text| ==> text[k] != '_'
    requires Contains(text, ds, Ordinal)
    ensures FindBold(Replace(text, ds, "__**" + ds + "**__", Ordinal)) == Some(ds)
    decreases |text|
  {
    var b := "__**" + ds + "**__";
    if MatchAt(text, ds, 0, Ordinal) {
      BoldHereOf(ds, Replace(text[|ds|..], ds, b, Ordinal));
    } else {
      assert text != [];
      ContainsTail(text, ds, Ordinal);
      var x := Replace(text[1..], ds, b, Ordinal);
      FindBoldReplace(text[1..], ds);
      assert Replace(text, ds, b, Ordinal) == [text[0]] + x;
      var y := [text[0]] + x;
      assert y[1..] == x;
      if |y| >= 4 {
        assert y[..4][0] == text[0];
      }
      assert BoldHere(y).None?;
    }
  }

  /** The trimmed range lo..hi is the range without its final space. */
  lemma TrimmedNumbers(lo: int, hi: int)
    requires 0 <= lo <= hi
    ensures var r := Numbers(lo, hi); Trim(r) == r[..|r| - 1]
  {
    var r := Numbers(lo, hi);
    NumbersEnds(lo, hi);
    DigitNotWhite(r[0]);
    DigitNotWhite(r[|r| - 2]);
    assert r == r[..|r| - 1] + " ";
    TrimTrailingSpace(r[..|r| - 1]);
  }

  /** A word followed by a space, with text around it, still occurs once the last character is dropped. */
  lemma OccursBeforeLast(x: string, d: string, y: string)
    ensures var r := x + (d + " ") + y; Contains(r[..|r| - 1], d, Ordinal)
  {
    var r := x + (d + " ") + y;
    var body := r[..|r| - 1];
    assert r == x + d + (" " + y);
    assert r[|x|..|x| + |d|] == d;
    assert body[|x|..|x| + |d|] == r[|x|..|x| + |d|];
    EqualReflexive(d, Ordinal);
    assert MatchAt(body, d, |x|, Ordinal);
  }

  /** The active number's digits occur in the trimmed range when it lies in it. */
  lemma ActiveOccurs(lo: int, a: int, hi: int)
    requires 0 <= lo <= a <= hi
    ensures Contains(Trim(Numbers(lo, hi)), IntToString(a), Ordinal)
  {
    TrimmedNumbers(lo, hi);
    NumbersSplit(lo, a, hi);
    OccursBeforeLast(Numbers(lo, a - 1), IntToString(a), Numbers(a + 1, hi));
  }

  /**
   * Numeric round trip: when 0 <= Min <= ActiveNumber <= Max, the track text
   * the card shows reads back as ActiveNumber.
   */
  lemma NumericRoundTrip(min: Int32, max: Int32, active: Int32)
    requires 0 <= min <= active <= max
    ensures ParsedNumber(TrackText(min as int, max as int, active as int)) == active
  {
    var lo, a, hi := min as int, active as int, max as int;
    var d := IntToString(a);
    IntToStringShape(a);
    var r := Numbers(lo, hi);
    TrimmedNumbers(lo, hi);
    NumbersChars(lo, hi);
    ActiveOccurs(lo, a, hi);
    assert forall k :: 0 <= k < |Trim(r)| ==> Trim(r)[k] == r[k];
    FindBoldReplace(Trim(r), d);
    IntRoundTrip(a);
    assert TryParseInt(d) == Some(a);
  }

  // ---------------------------------------------------------------------------
  // Reading the counting track back

  /** A number with an optional minus sign at the start of `s` (the regex `-?\d+` anchored here). */
  function SignedHere(s: string): Option<string> {
    if |s| >= 2 && s[0] == '-' && IsDigit(s[1]) then Some([s[0]] + LeadingDigits(s[1..]))
    else if |s| >= 1 && IsDigit(s[0]) then Some(LeadingDigits(s))
    else None
  }

  /** The leftmost match of `-?\d+`. */
  function FindSigned(s: string): Option<string>
    decreases |s|
  {
    if SignedHere(s).Some? then SignedHere(s) else if s == [] then None else FindSigned(s[1..])
  }

  /** The counting track value read back from a field: the first number, 0 when there is none or it overflows. */
  function ParsedCount(text: string): Int32 {
    match FindSigned(text)
    case None => 0
    case Some(m) =>
      if TryParseInt(m).Some? then TryParseRange(m); TryParseInt(m).value as Int32 else 0
  }

  /** Counting round trip: the decimal value the card shows reads back exactly. */
  lemma CountingRoundTrip(v: Int32)
    ensures ParsedCount(IntToString(v as int)) == v
  {
    var s := IntToString(v as int);
    IntToStringShape(v as int);
    if v < 0 {
      LeadingDigitsOf(s[1..], []);
      assert s[1..] + [] == s[1..];
      assert [s[0]] + s[1..] == s;
    } else {
      LeadingDigitsOf(s, []);
      assert s + [] == s;
    }
    assert FindSigned(s) == Some(s);
    IntRoundTrip(v as int);
  }

  // ---------------------------------------------------------------------------
  // Finding a track's field in a rendered card

  /** `embed.Fields.First(f => f.Name == name)`; `None` where `First` throws. */
  function FirstNamed(fields: seq<EmbedField>, name: string): (r: Option<EmbedField>)
    ensures r.Some? ==> r.value in fields && r.value.name == name
    ensures r.None? <==> forall f :: f in fields ==> f.name != name
  {
    if fields == [] then None
    else if fields[0].name == name then Some(fields[0])
    else FirstNamed(fields[1..], name)
  }

  lemma {:induction false} FirstNamedAppend(a: seq<EmbedField>, b: seq<EmbedField>, name: string)
    requires forall f :: f in a ==> f.name != name
    ensures FirstNamed(a + b, name) == FirstNamed(b, name)
  {
    if a != [] {
      assert (a + b)[1..] == a[1..] + b;
      FirstNamedAppend(a[1..], b, name);
    } else {
      assert a + b == b;
    }
  }

  /** Every field of an asset field is named by one of the two labels. */
  lemma FieldLabels(t: Template, fs: seq<FieldView>, args: seq<string>, k: nat)
    ensures forall f :: f in FieldEntries(t, fs, args, k) ==> f.name == EnabledEmoji || f.name == DisabledEmoji
  {
    forall f | f in FieldEntries(t, fs, args, k)
      ensures f.name == EnabledEmoji || f.name == DisabledEmoji
    {
      var i :| 0 <= i < |fs| && FieldEntries(t, fs, args, k)[i] == f;
    }
  }

  /** A multi-field track whose items are not called `name` has no field called `name`. */
  lemma TrackNames(items: seq<TrackItem>, name: string)
    requires forall i :: 0 <= i < |items| ==> items[i].name != name
    ensures forall f :: f in TrackEntries(items) ==> f.name != name
  {
    TrackEntriesAt(items);
  }

  /** No field before the counting and numeric tracks' is called `name`. */
  lemma NamesBefore(t: Template, a: AssetView, args: seq<string>, name: string)
    requires NameFreeBefore(a, name)
    ensures forall f :: f in FieldEntries(t, a.fields, args, |a.inputFields|) + MultiEntries(a.multiTrack) ==> f.name != name
  {
    FieldLabels(t, a.fields, args, |a.inputFields|);
    if a.multiTrack.Some? {
      TrackNames(a.multiTrack.value, name);
    }
  }

  /** No field before the counting track's shares `name`. */
  predicate NameFreeBefore(a: AssetView, name: string) {
    name != EnabledEmoji && name != DisabledEmoji
    && (a.multiTrack.Some? ==> forall i :: 0 <= i < |a.multiTrack.value| ==> a.multiTrack.value[i].name != name)
  }

  /**
   * Render, then read: a card's counting field is found by the track's name
   * and reads back as the starting value, when no earlier field shares that name.
   */
  lemma CardCountingRoundTrip(t: Template, a: AssetView, args: seq<string>)
    requires a.counting.Some? && a.counting.value.name.Some?
    requires NameFreeBefore(a, a.counting.value.name.value)
    ensures var f := FirstNamed(RenderEmbed(t, a, args).fields, a.counting.value.name.value);
      f.Some? && ParsedCount(f.value.value) == a.counting.value.startingValue
  {
    var name := a.counting.value.name.value;
    var before := FieldEntries(t, a.fields, args, |a.inputFields|) + MultiEntries(a.multiTrack);
    NamesBefore(t, a, args, name);
    FirstNamedAppend(before, CountingEntries(a.counting) + NumericEntries(a.numeric), name);
    assert RenderEmbed(t, a, args).fields == before + (CountingEntries(a.counting) + NumericEntries(a.numeric));
    CountingRoundTrip(a.counting.value.startingValue);
  }

  /**
   * Render, then read: a card's numeric field is found by the track's name
   * and reads back as the active number when 0 <= Min <= ActiveNumber <= Max,
   * when no earlier field shares that name.
   */
  lemma CardNumericRoundTrip(t: Template, a: AssetView, args: seq<string>)
    requires a.numeric.Some?
    requires var n := a.numeric.value; 0 <= n.min <= n.activeNumber <= n.max && n.max != 0
    requires NameFreeBefore(a, a.numeric.value.name)
    requires a.counting.Some? && a.counting.value.name.Some? ==> a.counting.value.name.value != a.numeric.value.name
    ensures var f := FirstNamed(RenderEmbed(t, a, args).fields, a.numeric.value.name);
      f.Some? && ParsedNumber(f.value.value) == a.numeric.value.activeNumber
  {
    var n := a.numeric.value;
    var before := FieldEntries(t, a.fields, args, |a.inputFields|) + MultiEntries(a.multiTrack) + CountingEntries(a.counting);
    NamesBefore(t, a, args, n.name);
    FirstNamedAppend(before, NumericEntries(a.numeric), n.name);
    NumericRoundTrip(n.min, n.max, n.activeNumber);
  }
}
