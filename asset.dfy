/**
 * The asset objects (TheOracle.GameCore.Assets: Asset, AssetField,
 * CountingAssetTrack) and what the bot does with them: render a card
 * (`GetEmbed`), copy an asset (`DeepCopy`) and read its tracks back from a
 * rendered card (the track part of `FromEmbed`).
 */
module Assets {
  import opened Wrappers
  import opened Games
  import opened Text
  import opened NumericTracks
  import opened AssetCards

  /** `AssetField`. */
  class AssetField {
    var id: Int32
    var text: string
    var enabled: bool
    var inputFields: Option<seq<string>>

    constructor (id: Int32, text: string, enabled: bool, inputFields: Option<seq<string>>)
      ensures this.id == id && this.text == text && this.enabled == enabled && this.inputFields == inputFields
    {
      this.id, this.text, this.enabled, this.inputFields := id, text, enabled, inputFields;
    }

    function View(): FieldView
      reads this
    {
      FieldView(text, enabled, inputFields)
    }

    /** `ShallowCopy`: a new field with the same values and its own copy of the input list. */
    method ShallowCopy() returns (instance: AssetField)
      ensures fresh(instance)
      ensures instance.id == id && instance.View() == View()
    {
      instance := new AssetField(id, text, enabled, inputFields);
    }
  }

  /** `CountingAssetTrack`; a `None` name is a null `Name`. */
  class CountingAssetTrack {
    var name: Option<string>
    var startingValue: Int32

    constructor (name: Option<string>, startingValue: Int32)
      ensures this.name == name && this.startingValue == startingValue
    {
      this.name, this.startingValue := name, startingValue;
    }

    function View(): CountingView
      reads this
    {
      CountingView(name, startingValue)
    }

    /** `DeepCopy`: a member-wise copy. */
    method DeepCopy() returns (track: CountingAssetTrack)
      ensures fresh(track) && track.View() == View()
    {
      track := new CountingAssetTrack(name, startingValue);
    }
  }

  /** The values of a list of asset fields, in order. */
  function FieldViews(fs: seq<AssetField>): seq<FieldView>
    reads fs
  {
    if fs == [] then [] else FieldViews(fs[..|fs| - 1]) + [fs[|fs| - 1].View()]
  }

  lemma {:induction false} FieldViewsAt(fs: seq<AssetField>, i: nat)
    requires i < |fs|
    ensures |FieldViews(fs)| == |fs| && FieldViews(fs)[i] == fs[i].View()
  {
    var n := |fs| - 1;
    if i < n {
      FieldViewsAt(fs[..n], i);
    } else if n > 0 {
      FieldViewsAt(fs[..n], n - 1);
    }
  }

  lemma FieldViewsAll(fs: seq<AssetField>)
    ensures |FieldViews(fs)| == |fs|
    ensures forall i :: 0 <= i < |fs| ==> FieldViews(fs)[i] == fs[i].View()
  {
    FieldViewsLength(fs);
    forall i | 0 <= i < |fs|
      ensures FieldViews(fs)[i] == fs[i].View()
    {
      FieldViewsAt(fs, i);
    }
  }

  lemma FieldViewsPrefix(fs: seq<AssetField>, i: nat)
    requires i < |fs|
    ensures FieldViews(fs[..i + 1]) == FieldViews(fs[..i]) + [fs[i].View()]
  {
    assert fs[..i + 1][..i] == fs[..i];
  }

  /** A multi-field asset track: its list of items, `None` when the list is null. */
  datatype MultiFieldAssetTrack = MultiFieldAssetTrack(fields: Option<seq<TrackItem>>)

  /** `Asset`. A `None` multi-field track and a null counting or numeric track stand for null references. */
  class Asset {
    var id: Int32
    var name: string
    var description: string
    var iconUrl: string
    var assetType: string
    var game: GameName
    var assetFields: seq<AssetField>
    var multiFieldAssetTrack: Option<MultiFieldAssetTrack>
    var countingAssetTrack: CountingAssetTrack?
    var numericAssetTrack: NumericAssetTrack?
    var inputFields: seq<string>
    var arguments: seq<string>

    /** An asset with the given contents, as loaded from the asset definitions, and no arguments. */
    constructor (id: Int32, name: string, description: string, iconUrl: string, assetType: string, game: GameName,
                 assetFields: seq<AssetField>, multiFieldAssetTrack: Option<MultiFieldAssetTrack>,
                 countingAssetTrack: CountingAssetTrack?, numericAssetTrack: NumericAssetTrack?, inputFields: seq<string>)
      ensures this.id == id && this.name == name && this.description == description && this.iconUrl == iconUrl
      ensures this.assetType == assetType && this.game == game && this.assetFields == assetFields
      ensures this.multiFieldAssetTrack == multiFieldAssetTrack && this.countingAssetTrack == countingAssetTrack
      ensures this.numericAssetTrack == numericAssetTrack && this.inputFields == inputFields && arguments == []
    {
      this.id, this.name, this.description, this.iconUrl, this.assetType, this.game := id, name, description, iconUrl, assetType, game;
      this.assetFields, this.multiFieldAssetTrack := assetFields, multiFieldAssetTrack;
      this.countingAssetTrack, this.numericAssetTrack := countingAssetTrack, numericAssetTrack;
      this.inputFields, arguments := inputFields, [];
    }

    /** Everything `GetEmbed` reads, as one value. */
    function View(): AssetView
      reads this, assetFields, countingAssetTrack, numericAssetTrack
    {
      AssetView(assetType, iconUrl, name, description, game, inputFields, FieldViews(assetFields),
        if multiFieldAssetTrack.Some? then multiFieldAssetTrack.value.fields else None,
        if countingAssetTrack != null then Some(countingAssetTrack.View()) else None,
        if numericAssetTrack != null
        then Some(NumericView(numericAssetTrack.name, numericAssetTrack.min, numericAssetTrack.max, numericAssetTrack.activeNumber))
        else None)
    }

    /**
     * `GetEmbed(arguments)`: the card for this asset, built field by field, the
     * argument cursor shared by the top-level inputs and those of every asset
     * field. A numeric track whose Max is `int.MaxValue` is excluded: the
     * source's loop counter would wrap there and the loop never end.
     */
    method GetEmbed(t: Template, args: seq<string>) returns (embed: Embed)
      requires numericAssetTrack != null ==> numericAssetTrack.max as int < MaxInt32
      ensures embed == RenderEmbed(t, View(), args)
    {
      var fullDesc, nextArgument := DescriptionText(t, args);
      var fields := AssetFieldEntries(t, args, nextArgument);
      var trackFields := MultiTrackEntries();
      var countingFields := CountingTrackEntries();
      var numericFields := NumericTrackEntries();
      embed := Embed(assetType, iconUrl, name, fullDesc, fields + trackFields + countingFields + numericFields, GameText(game));
    }

    /** The loop over the top-level input fields, then the asset's own text. */
    method DescriptionText(t: Template, args: seq<string>) returns (fullDesc: string, nextArgument: nat)
      ensures fullDesc == FullDescription(t, inputFields, args, description) && nextArgument == |inputFields|
    {
      nextArgument := 0;
      fullDesc := "";
      for j := 0 to |inputFields|
        invariant fullDesc == InputLines(t, inputFields[..j], args) && nextArgument == j
      {
        var userVal := if |args| - 1 >= nextArgument then args[nextArgument] else Blank;
        fullDesc := fullDesc + Format(t, inputFields[j], userVal) + "\n";
        InputLinesPrefix(t, inputFields, args, j);
        nextArgument := nextArgument + 1;
      }
      assert inputFields[..|inputFields|] == inputFields;
      fullDesc := fullDesc + (if |fullDesc| > 0 then "\n" + description else description);
    }

    /** The loop over the asset fields: a label and the text with its inputs, the cursor carried along. */
    method AssetFieldEntries(t: Template, args: seq<string>, first: nat) returns (fields: seq<EmbedField>)
      ensures fields == FieldEntries(t, FieldViews(assetFields), args, first)
    {
      FieldViewsAll(assetFields);
      fields := EntriesOf(t, assetFields, FieldViews(assetFields), args, first);
    }

    /** The loop over the multi-field track's items. */
    method MultiTrackEntries() returns (fields: seq<EmbedField>)
      ensures fields == MultiEntries(if multiFieldAssetTrack.Some? then multiFieldAssetTrack.value.fields else None)
    {
      fields := [];
      if multiFieldAssetTrack.Some? && multiFieldAssetTrack.value.fields.Some? {
        var items := multiFieldAssetTrack.value.fields.value;
        for q := 0 to |items|
          invariant fields == TrackEntries(items[..q])
        {
          var trackItem := items[q];
          var text := if trackItem.isActive then trackItem.activeText else trackItem.inactiveText;
          fields := fields + [EmbedField(trackItem.name, text, true)];
          TrackEntriesPrefix(items, q);
        }
        assert items[..|items|] == items;
      }
    }

    /** The counting track's field: its name and its starting value, when it has a name. */
    method CountingTrackEntries() returns (fields: seq<EmbedField>)
      ensures fields == CountingEntries(if countingAssetTrack != null then Some(countingAssetTrack.View()) else None)
    {
      fields := [];
      if countingAssetTrack != null && countingAssetTrack.name.Some? {
        fields := [EmbedField(countingAssetTrack.name.value, IntToString(countingAssetTrack.startingValue as int), false)];
      }
    }

    /** The numeric track's field, unless both of its bounds are zero. */
    method NumericTrackEntries() returns (fields: seq<EmbedField>)
      requires numericAssetTrack != null ==> numericAssetTrack.max as int < MaxInt32
      ensures fields == NumericEntries(if numericAssetTrack != null
        then Some(NumericView(numericAssetTrack.name, numericAssetTrack.min, numericAssetTrack.max, numericAssetTrack.activeNumber))
        else None)
    {
      fields := [];
      if numericAssetTrack != null && !(numericAssetTrack.max == 0 && numericAssetTrack.min == 0) {
        var trackText := NumericTrackText();
        fields := [EmbedField(numericAssetTrack.name, trackText, false)];
      }
    }

    /** The numeric track's text: Min to Max, each followed by a space, trimmed, the active number marked. */
    method NumericTrackText() returns (trackText: string)
      requires numericAssetTrack != null && numericAssetTrack.max as int < MaxInt32
      ensures trackText == TrackText(numericAssetTrack.min as int, numericAssetTrack.max as int, numericAssetTrack.activeNumber as int)
    {
      var track := numericAssetTrack;
      trackText := "";
      var i: int := track.min as int;
      while i <= track.max as int
        invariant track.min as int <= i && (i <= track.max as int + 1 || i == track.min as int) && trackText == Numbers(track.min as int, i - 1)
        decreases track.max as int + 1 - i
      {
        trackText := trackText + (IntToString(i) + " ");
        i := i + 1;
      }
      var active := IntToString(track.activeNumber as int);
      trackText := Replace(Trim(trackText), active, "__**" + active + "**__", Ordinal);
    }

    /**
     * `DeepCopy`: a new asset with the same contents, new copies of its asset
     * fields and tracks, and no arguments.
     */
    method DeepCopy() returns (asset: Asset)
      ensures fresh(asset) && asset.View() == View() && asset.id == id && asset.arguments == []
      ensures |asset.assetFields| == |assetFields| && forall i :: 0 <= i < |assetFields| ==> fresh(asset.assetFields[i])
      ensures asset.countingAssetTrack != null ==> fresh(asset.countingAssetTrack)
      ensures asset.numericAssetTrack != null ==> fresh(asset.numericAssetTrack)
    {
      var copies := CopyFields(assetFields);
      var counting: CountingAssetTrack? := null;
      if countingAssetTrack != null {
        counting := countingAssetTrack.DeepCopy();
      }
      var numeric: NumericAssetTrack? := null;
      if numericAssetTrack != null {
        numeric := numericAssetTrack.DeepCopy();
      }
      asset := new Asset(id, name, description, iconUrl, assetType, game, copies, multiFieldAssetTrack, counting, numeric, inputFields);
    }

    /**
     * The track part of `FromEmbed`: the numeric track takes, through its
     * setter, the marked number of the first field named like it, and the
     * counting track the first number of the first field named like it. A
     * track with no such field makes `First` throw; that ends the read.
     */
    method ReadTracks(fields: seq<EmbedField>) returns (error: Option<string>)
      modifies numericAssetTrack, countingAssetTrack
      ensures numericAssetTrack == old(numericAssetTrack) && countingAssetTrack == old(countingAssetTrack)
      ensures unchanged(assetFields)
      ensures var numeric := if numericAssetTrack != null then FirstNamed(fields, numericAssetTrack.name) else None;
        var counting := if countingAssetTrack != null && countingAssetTrack.name.Some?
                        then FirstNamed(fields, countingAssetTrack.name.value) else None;
        var numericFails := numericAssetTrack != null && numeric.None?;
        var countingFails := countingAssetTrack != null && counting.None?;
        (error.Some? <==> numericFails || countingFails)
        && (numericAssetTrack != null ==>
              numericAssetTrack.id == old(numericAssetTrack.id) && numericAssetTrack.name == old(numericAssetTrack.name) &&
              numericAssetTrack.min == old(numericAssetTrack.min) && numericAssetTrack.max == old(numericAssetTrack.max) &&
              numericAssetTrack.activeNumber
                == (if numeric.Some? then Assigned(old(numericAssetTrack.activeNumber), ParsedNumber(numeric.value.value), numericAssetTrack.min, numericAssetTrack.max)
                    else old(numericAssetTrack.activeNumber)))
        && (countingAssetTrack != null ==>
              countingAssetTrack.name == old(countingAssetTrack.name) &&
              countingAssetTrack.startingValue
                == (if counting.Some? && !numericFails then ParsedCount(counting.value.value) else old(countingAssetTrack.startingValue)))
    {
      error := None;
      if numericAssetTrack != null {
        var field := FirstNamed(fields, numericAssetTrack.name);
        if field.None? {
          error := Some("Sequence contains no matching element");
          return;
        }
        var value := ParsedNumber(field.value.value);
        numericAssetTrack.SetActiveNumber(value);
      }
      if countingAssetTrack != null {
        if countingAssetTrack.name.None? {
          error := Some("Sequence contains no matching element");
          return;
        }
        var field := FirstNamed(fields, countingAssetTrack.name.value);
        if field.None? {
          error := Some("Sequence contains no matching element");
          return;
        }
        countingAssetTrack.startingValue := ParsedCount(field.value.value);
      }
    }
  }

  /** The loop over the asset fields, given their values `views`: the cursor carried from one field to the next. */
  method EntriesOf(t: Template, fs: seq<AssetField>, ghost views: seq<FieldView>, args: seq<string>, first: nat)
    returns (fields: seq<EmbedField>)
    requires |views| == |fs| && forall i :: 0 <= i < |fs| ==> views[i] == fs[i].View()
    ensures fields == FieldEntries(t, views, args, first)
  {
    var nextArgument := first;
    fields := [];
    for i := 0 to |fs|
      invariant fields == FieldEntries(t, views[..i], args, first)
      invariant nextArgument == first + ItemCount(views[..i])
    {
      var entry, next := FieldEntryOf(t, fs[i].View(), args, nextArgument);
      FieldEntriesPrefix(t, views, args, first, i);
      ItemCountPrefix(views, i);
      fields := fields + [entry];
      nextArgument := next;
    }
    assert views[..|fs|] == views;
  }

  /** One asset field's embed field, its inputs taking arguments from `start` on; `next` is the cursor after them. */
  method FieldEntryOf(t: Template, fld: FieldView, args: seq<string>, start: nat) returns (entry: EmbedField, next: nat)
    ensures entry == FieldEntry(t, fld, args, start) && next == start + |Items(fld)|
  {
    var fieldName := if fld.enabled then EnabledEmoji else DisabledEmoji;
    var inputField := "";
    next := start;
    if fld.inputFields.Some? && |fld.inputFields.value| > 0 {
      var itemList := fld.inputFields.value;
      for m := 0 to |itemList|
        invariant inputField == ItemInputs(t, itemList[..m], args, start) && next == start + m
      {
        var userVal := if |args| - 1 >= next then args[next] else Blank;
        inputField := inputField + "\n" + Format(t, itemList[m], userVal);
        ItemInputsPrefix(t, itemList, args, start, m);
        next := next + 1;
      }
      assert itemList[..|itemList|] == itemList;
    }
    entry := EmbedField(fieldName, fld.text + inputField, false);
  }

  /** The loop of `DeepCopy` over the asset fields: a shallow copy of each, in order. */
  method CopyFields(fs: seq<AssetField>) returns (copies: seq<AssetField>)
    ensures |copies| == |fs| && (forall j :: 0 <= j < |fs| ==> fresh(copies[j]))
    ensures FieldViews(copies) == FieldViews(fs)
  {
    copies := [];
    for i := 0 to |fs|
      invariant |copies| == i && forall j :: 0 <= j < i ==> fresh(copies[j])
      invariant FieldViews(copies) == FieldViews(fs[..i])
    {
      var c := fs[i].ShallowCopy();
      FieldViewsPrefix(fs, i);
      FieldViewsAppend(copies, c);
      copies := copies + [c];
    }
    assert fs[..|fs|] == fs;
  }

  lemma FieldViewsAppend(fs: seq<AssetField>, f: AssetField)
    ensures FieldViews(fs + [f]) == FieldViews(fs) + [f.View()]
  {
    assert (fs + [f])[..|fs|] == fs;
  }

  lemma {:induction false} FieldViewsLength(fs: seq<AssetField>)
    ensures |FieldViews(fs)| == |fs|
  {
    if fs != [] {
      FieldViewsLength(fs[..|fs| - 1]);
    }
  }

  /**
   * When reading a card back restores the tracks: the numeric track (if any)
   * in 0 <= Min <= ActiveNumber <= Max with Max != 0, the counting track (if
   * any) named, and no earlier field named like either track.
   */
  predicate Reloadable(v: AssetView) {
    (v.numeric.Some? ==>
       var n := v.numeric.value;
       0 <= n.min <= n.activeNumber <= n.max && n.max != 0 && NameFreeBefore(v, n.name)) &&
    (v.counting.Some? ==> v.counting.value.name.Some? && NameFreeBefore(v, v.counting.value.name.value)) &&
    (v.numeric.Some? && v.counting.Some? ==> v.counting.value.name != Some(v.numeric.value.name))
  }

  /**
   * Render an asset's card, copy the asset and read the copy's tracks back
   * from the card (what a reaction handler does with the message it reacts
   * to): the read succeeds and the copy has the original's contents. (The
   * original cannot change: the method modifies nothing that existed before it.)
   */
  method RenderAndReload(a: Asset, t: Template, args: seq<string>) returns (copy: Asset, error: Option<string>)
    requires Reloadable(a.View())
    requires a.numericAssetTrack != null ==> a.numericAssetTrack.max as int < MaxInt32
    ensures fresh(copy) && error.None? && copy.View() == old(a.View())
  {
    var embed := a.GetEmbed(t, args);
    ghost var v := a.View();
    if v.numeric.Some? {
      CardNumericRoundTrip(t, v, args);
    }
    if v.counting.Some? {
      CardCountingRoundTrip(t, v, args);
    }
    copy := a.DeepCopy();
    ghost var views := FieldViews(copy.assetFields);
    assert copy.numericAssetTrack == null || copy.numericAssetTrack != a.numericAssetTrack;
    assert copy.countingAssetTrack == null || copy.countingAssetTrack != a.countingAssetTrack;
    assert FieldViews(a.assetFields) == v.fields;
    assert a.numericAssetTrack == null || a.numericAssetTrack.activeNumber == v.numeric.value.activeNumber;
    assert a.View() == v;
    error := copy.ReadTracks(embed.fields);
    assert FieldViews(copy.assetFields) == views;
    if copy.numericAssetTrack != null {
      assert copy.numericAssetTrack.activeNumber == v.numeric.value.activeNumber;
    }
    if copy.countingAssetTrack != null {
      assert copy.countingAssetTrack.startingValue == v.counting.value.startingValue;
    }
    assert copy.numericAssetTrack != null <==> v.numeric.Some?;
    assert copy.countingAssetTrack != null <==> v.counting.Some?;
    assert copy.View().fields == v.fields;
    assert copy.View().numeric == v.numeric;
    assert copy.View().counting == v.counting;
    assert copy.View() == v;
  }
}
