/** Zivid's capture parameters: batches of ROS parameters are folded into one record, and after a
    change the record is written out as a settings document and sent to the camera node.

    Parameters have their declared types, as the ROS node makes sure of. Requests to the camera
    node are served in the order in which they are sent.
  */
module ZividSettings {
  import opened Common
  import opened Yaml

  datatype Setting = Real(r: real) | Bool(b: bool) | Text(s: string)
  datatype Param = Param(name: string, value: Setting)

  datatype Field =
    | ExposureTime | Gain | Gamma | ProjectorBrightness | Aperture | OutlierRemovalEnabled | OutlierRemovalThreshold

  datatype CaptureParameters = CaptureParameters(
    exposureTime: real, gain: real, gamma: real, projectorBrightness: real, aperture: real,
    outlierRemovalEnabled: bool, outlierRemovalThreshold: real)
  {
    function Get(f: Field): Setting {
      match f
      case ExposureTime => Real(exposureTime)
      case Gain => Real(gain)
      case Gamma => Real(gamma)
      case ProjectorBrightness => Real(projectorBrightness)
      case Aperture => Real(aperture)
      case OutlierRemovalEnabled => Bool(outlierRemovalEnabled)
      case OutlierRemovalThreshold => Real(outlierRemovalThreshold)
    }
  }

  const BOOT_DEFAULTS := CaptureParameters(8333.0, 1.0, 1.0, 1.0, 5.66, true, 5.0)

  /** The record's field that a name stands for, if any; most fields have several names. */
  function FieldOf(name: string): Option<Field> {
    if name == "exposure_time" || name == "ExposureTime" then Some(ExposureTime)
    else if name == "gain" || name == "Gain" then Some(Gain)
    else if name == "gamma" || name == "Gamma" then Some(Gamma)
    else if name == "projector_brightness" || name == "brightness" || name == "Brightness" then
      Some(ProjectorBrightness)
    else if name == "aperture" || name == "Aperture" then Some(Aperture)
    else if name == "outlier_removal_enabled" || name == "OutlierRemovalEnabled" then Some(OutlierRemovalEnabled)
    else if name == "outlier_removal_threshold" || name == "OutlierRemovalThreshold" then Some(OutlierRemovalThreshold)
    else None
  }

  /** The two parameters that replace the camera's settings as a whole. */
  predicate IsWholeSettings(name: string) {
    name == "settings_yaml" || name == "settings_file_path"
  }

  predicate WellTyped(p: Param) {
    && (FieldOf(p.name) == Some(OutlierRemovalEnabled) ==> p.value.Bool?)
    && (FieldOf(p.name).Some? && FieldOf(p.name) != Some(OutlierRemovalEnabled) ==> p.value.Real?)
    && (IsWholeSettings(p.name) ==> p.value.Text?)
  }

  type Batch = ps: seq<Param> | forall i :: 0 <= i < |ps| ==> WellTyped(ps[i])

  lemma WholeSettingsNames(name: string)
    ensures IsWholeSettings(name) <==> name == "settings_yaml" || name == "settings_file_path"
  {
  }

  // ----- The record -----

  function Assign(c: CaptureParameters, p: Param): CaptureParameters
    requires WellTyped(p)
  {
    match FieldOf(p.name)
    case None => c
    case Some(ExposureTime) => c.(exposureTime := p.value.r)
    case Some(Gain) => c.(gain := p.value.r)
    case Some(Gamma) => c.(gamma := p.value.r)
    case Some(ProjectorBrightness) => c.(projectorBrightness := p.value.r)
    case Some(Aperture) => c.(aperture := p.value.r)
    case Some(OutlierRemovalEnabled) => c.(outlierRemovalEnabled := p.value.b)
    case Some(OutlierRemovalThreshold) => c.(outlierRemovalThreshold := p.value.r)
  }

  function Fold(c: CaptureParameters, batch: Batch): CaptureParameters {
    if batch == [] then c else Assign(Fold(c, batch[..|batch| - 1]), batch[|batch| - 1])
  }

  ghost predicate SetsField(batch: Batch, i: int, f: Field) {
    0 <= i < |batch| && FieldOf(batch[i].name) == Some(f)
  }

  /** What an entry sets, by name: that part of the record, and that one only. */
  lemma EntrySetsByName(c: CaptureParameters, p: Param)
    requires WellTyped(p)
    ensures p.name == "exposure_time" || p.name == "ExposureTime" ==> Assign(c, p) == c.(exposureTime := p.value.r)
    ensures p.name == "gain" || p.name == "Gain" ==> Assign(c, p) == c.(gain := p.value.r)
    ensures p.name == "gamma" || p.name == "Gamma" ==> Assign(c, p) == c.(gamma := p.value.r)
    ensures p.name == "projector_brightness" || p.name == "brightness" || p.name == "Brightness" ==>
              Assign(c, p) == c.(projectorBrightness := p.value.r)
    ensures p.name == "aperture" || p.name == "Aperture" ==> Assign(c, p) == c.(aperture := p.value.r)
    ensures p.name == "outlier_removal_enabled" || p.name == "OutlierRemovalEnabled" ==>
              Assign(c, p) == c.(outlierRemovalEnabled := p.value.b)
    ensures p.name == "outlier_removal_threshold" || p.name == "OutlierRemovalThreshold" ==>
              Assign(c, p) == c.(outlierRemovalThreshold := p.value.r)
    ensures FieldOf(p.name) == None ==> Assign(c, p) == c
  {
    FieldNames(p.name);
  }

  /** The names of each part of the record. */
  lemma FieldNames(name: string)
    ensures FieldOf(name) == Some(ExposureTime) <==> name == "exposure_time" || name == "ExposureTime"
    ensures FieldOf(name) == Some(Gain) <==> name == "gain" || name == "Gain"
    ensures FieldOf(name) == Some(Gamma) <==> name == "gamma" || name == "Gamma"
    ensures FieldOf(name) == Some(ProjectorBrightness)
            <==> name == "projector_brightness" || name == "brightness" || name == "Brightness"
    ensures FieldOf(name) == Some(Aperture) <==> name == "aperture" || name == "Aperture"
    ensures FieldOf(name) == Some(OutlierRemovalEnabled)
            <==> name == "outlier_removal_enabled" || name == "OutlierRemovalEnabled"
    ensures FieldOf(name) == Some(OutlierRemovalThreshold)
            <==> name == "outlier_removal_threshold" || name == "OutlierRemovalThreshold"
  {
    assert "exposure_time"[0] == 'e' && "ExposureTime"[0] == 'E' && |"gain"| == |"Gain"| == 4 && |"gamma"| == |"Gamma"| == 5;
    assert "gain"[0] == "gamma"[0] == 'g' && "Gain"[0] == "Gamma"[0] == 'G';
    assert "projector_brightness"[0] == 'p' && "brightness"[0] == 'b' && "Brightness"[0] == 'B';
    assert "aperture"[0] == 'a' && "Aperture"[0] == 'A';
    assert "outlier_removal_enabled"[0] == "outlier_removal_threshold"[0] == 'o';
    assert "OutlierRemovalEnabled"[0] == "OutlierRemovalThreshold"[0] == 'O';
    assert |"outlier_removal_enabled"| != |"outlier_removal_threshold"|;
    assert |"OutlierRemovalEnabled"| != |"OutlierRemovalThreshold"|;
  }

  lemma FrontSets(batch: Batch, f: Field, j: int)
    requires batch != [] && j < |batch| - 1
    ensures SetsField(batch[..|batch| - 1], j, f) <==> SetsField(batch, j, f)
  {
  }

  lemma AssignMeaning(c: CaptureParameters, p: Param, f: Field)
    requires WellTyped(p)
    ensures Assign(c, p).Get(f) == if FieldOf(p.name) == Some(f) then p.value else c.Get(f)
  {
  }

  /** The last entry for a field wins, under whichever of its names. */
  lemma {:induction false} LastWriterWins(c: CaptureParameters, batch: Batch, f: Field, i: nat)
    requires SetsField(batch, i, f) && forall j :: i < j < |batch| ==> !SetsField(batch, j, f)
    ensures Fold(c, batch).Get(f) == batch[i].value
  {
    var n := |batch| - 1;
    AssignMeaning(Fold(c, batch[..n]), batch[n], f);
    if i < n {
      assert !SetsField(batch, n, f);
      forall j | i <= j < n
        ensures SetsField(batch[..n], j, f) <==> SetsField(batch, j, f)
      {
        FrontSets(batch, f, j);
      }
      LastWriterWins(c, batch[..n], f, i);
    }
  }

  /** A field that no entry names keeps its value. */
  lemma {:induction false} UnnamedFieldStays(c: CaptureParameters, batch: Batch, f: Field)
    requires forall j :: 0 <= j < |batch| ==> !SetsField(batch, j, f)
    ensures Fold(c, batch).Get(f) == c.Get(f)
  {
    if batch != [] {
      var n := |batch| - 1;
      assert !SetsField(batch, n, f);
      forall j | 0 <= j < n
        ensures !SetsField(batch[..n], j, f)
      {
        FrontSets(batch, f, j);
      }
      UnnamedFieldStays(c, batch[..n], f);
      AssignMeaning(Fold(c, batch[..n]), batch[n], f);
    }
  }

  /** Two batches, one after the other, do what their concatenation does. */
  lemma {:induction false} FoldOfConcatenation(c: CaptureParameters, a: Batch, b: Batch)
    ensures Fold(c, a + b) == Fold(Fold(c, a), b)
  {
    if b == [] {
      assert a + b == a;
    } else {
      assert (a + b)[..|a + b| - 1] == a + b[..|b| - 1];
      FoldOfConcatenation(c, a, b[..|b| - 1]);
    }
  }

  // ----- The document -----

  function AcquisitionTree(c: CaptureParameters): Tree {
    Mapping(
      Entry("Aperture", Leaf(Num(c.aperture)),
      Entry("Brightness", Leaf(Num(c.projectorBrightness)),
      Entry("ExposureTime", Leaf(Num(c.exposureTime)),
      Entry("Gain", Leaf(Num(c.gain)), NoEntries)))))
  }

  function RemovalTree(c: CaptureParameters): Tree {
    Mapping(
      Entry("Enabled", Leaf(Str(if c.outlierRemovalEnabled then "yes" else "no")),
      Entry("Threshold", Leaf(Num(c.outlierRemovalThreshold)), NoEntries)))
  }

  function Only(key: string, value: Tree): Tree {
    Mapping(Entry(key, value, NoEntries))
  }

  function AcquisitionsTree(c: CaptureParameters): Tree {
    Sequence(Item(Only("Acquisition", AcquisitionTree(c)), NoItems))
  }

  function ProcessingTree(c: CaptureParameters): Tree {
    Mapping(
      Entry("Color", Only("Gamma", Leaf(Num(c.gamma))),
      Entry("Filters", Only("Outlier", Only("Removal", RemovalTree(c))), NoEntries)))
  }

  function VersionTree(): Tree {
    Mapping(Entry("serializer", Leaf(Int(1)), Entry("data", Leaf(Int(22)), NoEntries)))
  }

  function SettingsTree(c: CaptureParameters): Tree {
    Mapping(
      Entry("__version__", VersionTree(),
      Entry("Settings",
        Mapping(
          Entry("Acquisitions", AcquisitionsTree(c),
          Entry("Processing", ProcessingTree(c), NoEntries))),
      NoEntries)))
  }

  function Number(t: Option<Tree>): Option<real> {
    if t.Some? && t.value.Leaf? && t.value.a.Num? then Some(t.value.a.r) else None
  }

  function YesNo(t: Option<Tree>): Option<bool> {
    if t == Some(Leaf(Str("yes"))) then Some(true)
    else if t == Some(Leaf(Str("no"))) then Some(false)
    else None
  }

  /** What a reader of the document finds: each parameter under its own path. */
  function ReadTree(t: Tree): Option<CaptureParameters> {
    var settings := Child(Some(t), "Settings");
    var acquisition := Child(First(Child(settings, "Acquisitions")), "Acquisition");
    var processing := Child(settings, "Processing");
    var removal := Child(Child(Child(processing, "Filters"), "Outlier"), "Removal");
    var exposureTime := Number(Child(acquisition, "ExposureTime"));
    var gain := Number(Child(acquisition, "Gain"));
    var gamma := Number(Child(Child(processing, "Color"), "Gamma"));
    var brightness := Number(Child(acquisition, "Brightness"));
    var aperture := Number(Child(acquisition, "Aperture"));
    var enabled := YesNo(Child(removal, "Enabled"));
    var threshold := Number(Child(removal, "Threshold"));
    if exposureTime.Some? && gain.Some? && gamma.Some? && brightness.Some? && aperture.Some?
       && enabled.Some? && threshold.Some?
    then Some(CaptureParameters(exposureTime.value, gain.value, gamma.value, brightness.value, aperture.value,
                                enabled.value, threshold.value))
    else None
  }

  function ReadDocument(ts: seq<Token>): Option<CaptureParameters> {
    match Parse(ts)
    case Some((t, rest)) => if rest == [] then ReadTree(t) else None
    case None => None
  }

  function PairEvents(key: string, a: Scalar): (r: seq<Token>)
    ensures |r| == 4
  {
    [Key, Atom(Str(key)), Value, Atom(a)]
  }

  method EmitVersion(before: seq<Token>) returns (out: seq<Token>)
    ensures out == before + ([Key, Atom(Str("__version__")), Value] + Emit(VersionTree()))
  {
    out := before + [Key, Atom(Str("__version__"))];
    out := out + [Value, BeginMap, Key, Atom(Str("serializer")), Value, Atom(Int(1)), Key, Atom(Str("data")), Value,
                  Atom(Int(22)), EndMap];
    LeafEntry("data", Int(22), NoEntries);
    LeafEntry("serializer", Int(1), Entry("data", Leaf(Int(22)), NoEntries));
  }

  method EmitAcquisition(c: CaptureParameters, before: seq<Token>) returns (out: seq<Token>)
    ensures out == before + Emit(AcquisitionTree(c))
  {
    out := before + [BeginMap];
    out := out + PairEvents("Aperture", Num(c.aperture));
    out := out + PairEvents("Brightness", Num(c.projectorBrightness));
    out := out + PairEvents("ExposureTime", Num(c.exposureTime));
    out := out + PairEvents("Gain", Num(c.gain));
    out := out + [EndMap];
    FourEntries(c);
    Regroup(before, [BeginMap], PairEvents("Aperture", Num(c.aperture)), PairEvents("Brightness", Num(c.projectorBrightness)),
            PairEvents("ExposureTime", Num(c.exposureTime)), PairEvents("Gain", Num(c.gain)), [EndMap]);
  }

  method EmitAcquisitions(c: CaptureParameters, before: seq<Token>) returns (out: seq<Token>)
    ensures out == before + ([Key, Atom(Str("Acquisitions")), Value] + Emit(AcquisitionsTree(c)))
  {
    out := before + [Key, Atom(Str("Acquisitions"))];
    out := out + [Value, BeginSeq];
    out := out + [BeginMap];
    out := out + [Key, Atom(Str("Acquisition"))];
    out := out + [Value];
    assert out == before + [Key, Atom(Str("Acquisitions")), Value, BeginSeq, BeginMap, Key, Atom(Str("Acquisition")), Value];
    out := EmitAcquisition(c, out);
    out := out + [EndMap];
    out := out + [EndSeq];
    OnlyEvents("Acquisition", AcquisitionTree(c));
    OneItem(Only("Acquisition", AcquisitionTree(c)));
    AcquisitionsShape(before, Emit(AcquisitionTree(c)));
  }

  lemma AcquisitionsShape(before: seq<Token>, a: seq<Token>)
    ensures before + [Key, Atom(Str("Acquisitions")), Value, BeginSeq, BeginMap, Key, Atom(Str("Acquisition")), Value]
            + a + [EndMap] + [EndSeq]
            == before + ([Key, Atom(Str("Acquisitions")), Value]
                         + ([BeginSeq] + ([BeginMap, Key, Atom(Str("Acquisition")), Value] + a + [EndMap]) + [EndSeq]))
  {
  }

  lemma OneItem(v: Tree)
    ensures Emit(Sequence(Item(v, NoItems))) == [BeginSeq] + Emit(v) + [EndSeq]
  {
    assert EmitItems(Item(v, NoItems)) == Emit(v);
  }

  lemma Regroup(b: seq<Token>, h: seq<Token>, p1: seq<Token>, p2: seq<Token>, p3: seq<Token>, p4: seq<Token>, e: seq<Token>)
    ensures b + h + p1 + p2 + p3 + p4 + e == b + (h + (p1 + (p2 + (p3 + p4))) + e)
  {
  }

  function FourPairs(c: CaptureParameters): seq<Token> {
    PairEvents("Aperture", Num(c.aperture))
    + (PairEvents("Brightness", Num(c.projectorBrightness))
       + (PairEvents("ExposureTime", Num(c.exposureTime)) + PairEvents("Gain", Num(c.gain))))
  }

  lemma LeafEntry(key: string, a: Scalar, rest: Entries)
    ensures EmitEntries(Entry(key, Leaf(a), rest)) == PairEvents(key, a) + EmitEntries(rest)
  {
  }

  lemma FourEntries(c: CaptureParameters)
    ensures EmitEntries(AcquisitionTree(c).entries) == FourPairs(c)
  {
    var e4 := Entry("Gain", Leaf(Num(c.gain)), NoEntries);
    var e3 := Entry("ExposureTime", Leaf(Num(c.exposureTime)), e4);
    var e2 := Entry("Brightness", Leaf(Num(c.projectorBrightness)), e3);
    LeafEntry("Gain", Num(c.gain), NoEntries);
    LeafEntry("ExposureTime", Num(c.exposureTime), e4);
    LeafEntry("Brightness", Num(c.projectorBrightness), e3);
    LeafEntry("Aperture", Num(c.aperture), e2);
  }

  lemma OnlyEvents(key: string, value: Tree)
    ensures Emit(Only(key, value)) == [BeginMap, Key, Atom(Str(key)), Value] + Emit(value) + [EndMap]
  {
    assert EmitEntries(Entry(key, value, NoEntries)) == [Key, Atom(Str(key)), Value] + Emit(value);
  }

  method EmitProcessing(c: CaptureParameters, before: seq<Token>) returns (out: seq<Token>)
    ensures out == before + ([Key, Atom(Str("Processing")), Value] + Emit(ProcessingTree(c)))
  {
    out := before + [Key, Atom(Str("Processing"))];
    out := out + [Value, BeginMap];
    out := out + ColorTokens(c);
    out := out + FiltersTokens(c);
    out := out + [EndMap];
    ProcessingEvents(c);
    ProcessingShape(before, ColorTokens(c), FiltersTokens(c));
  }

  lemma ProcessingShape(before: seq<Token>, color: seq<Token>, filters: seq<Token>)
    ensures before + [Key, Atom(Str("Processing"))] + [Value, BeginMap] + color + filters + [EndMap]
            == before + ([Key, Atom(Str("Processing")), Value] + ([BeginMap] + (color + filters) + [EndMap]))
  {
  }

  function ColorTokens(c: CaptureParameters): seq<Token> {
    [Key, Atom(Str("Color")), Value, BeginMap, Key, Atom(Str("Gamma")), Value, Atom(Num(c.gamma)), EndMap]
  }

  function FiltersTokens(c: CaptureParameters): seq<Token> {
    [Key, Atom(Str("Filters")), Value, BeginMap, Key, Atom(Str("Outlier")), Value, BeginMap,
     Key, Atom(Str("Removal")), Value, BeginMap, Key, Atom(Str("Enabled")), Value,
     Atom(Str(if c.outlierRemovalEnabled then "yes" else "no")), Key, Atom(Str("Threshold")), Value,
     Atom(Num(c.outlierRemovalThreshold)), EndMap, EndMap, EndMap]
  }

  lemma ProcessingEvents(c: CaptureParameters)
    ensures Emit(ProcessingTree(c)) == [BeginMap] + (ColorTokens(c) + FiltersTokens(c)) + [EndMap]
  {
    var filters := Entry("Filters", Only("Outlier", Only("Removal", RemovalTree(c))), NoEntries);
    FiltersEvents(c);
    OnlyEvents("Gamma", Leaf(Num(c.gamma)));
    assert ColorTokens(c) == [Key, Atom(Str("Color")), Value] + Emit(Only("Gamma", Leaf(Num(c.gamma))));
    assert EmitEntries(Entry("Color", Only("Gamma", Leaf(Num(c.gamma))), filters)) == ColorTokens(c) + EmitEntries(filters);
  }

  lemma FiltersEvents(c: CaptureParameters)
    ensures EmitEntries(Entry("Filters", Only("Outlier", Only("Removal", RemovalTree(c))), NoEntries)) == FiltersTokens(c)
  {
    var outlier := Only("Outlier", Only("Removal", RemovalTree(c)));
    RemovalEvents(c);
    OnlyEvents("Removal", RemovalTree(c));
    OnlyEvents("Outlier", Only("Removal", RemovalTree(c)));
    assert EmitEntries(Entry("Filters", outlier, NoEntries)) == [Key, Atom(Str("Filters")), Value] + Emit(outlier);
    FiltersShape(Emit(RemovalTree(c)));
    assert FiltersTokens(c) == FiltersHead() + Emit(RemovalTree(c)) + [EndMap, EndMap];
  }

  function FiltersHead(): seq<Token> {
    [Key, Atom(Str("Filters")), Value, BeginMap, Key, Atom(Str("Outlier")), Value, BeginMap,
     Key, Atom(Str("Removal")), Value]
  }

  lemma FiltersShape(r: seq<Token>)
    ensures [Key, Atom(Str("Filters")), Value]
            + ([BeginMap, Key, Atom(Str("Outlier")), Value]
               + ([BeginMap, Key, Atom(Str("Removal")), Value] + r + [EndMap]) + [EndMap])
            == FiltersHead() + r + [EndMap, EndMap]
  {
  }

  lemma RemovalEvents(c: CaptureParameters)
    ensures Emit(RemovalTree(c))
            == [BeginMap, Key, Atom(Str("Enabled")), Value, Atom(Str(if c.outlierRemovalEnabled then "yes" else "no")),
                Key, Atom(Str("Threshold")), Value, Atom(Num(c.outlierRemovalThreshold)), EndMap]
  {
    LeafEntry("Threshold", Num(c.outlierRemovalThreshold), NoEntries);
    LeafEntry("Enabled", Str(if c.outlierRemovalEnabled then "yes" else "no"),
              Entry("Threshold", Leaf(Num(c.outlierRemovalThreshold)), NoEntries));
  }

  /** The settings document, written event by event. */
  method GenerateZividSettings(c: CaptureParameters) returns (out: seq<Token>)
    ensures out == Emit(SettingsTree(c))
  {
    out := [BeginMap];
    out := EmitVersion(out);
    out := out + [Key, Atom(Str("Settings"))];
    out := out + [Value, BeginMap];
    out := EmitAcquisitions(c, out);
    out := EmitProcessing(c, out);
    out := out + [EndMap];
    out := out + [EndMap];
    SettingsEvents(c);
  }

  lemma SettingsEvents(c: CaptureParameters)
    ensures Emit(SettingsTree(c))
            == [BeginMap] + ([Key, Atom(Str("__version__")), Value] + Emit(VersionTree()))
               + [Key, Atom(Str("Settings"))] + [Value, BeginMap]
               + ([Key, Atom(Str("Acquisitions")), Value] + Emit(AcquisitionsTree(c)))
               + ([Key, Atom(Str("Processing")), Value] + Emit(ProcessingTree(c)))
               + [EndMap] + [EndMap]
  {
    var processing := Entry("Processing", ProcessingTree(c), NoEntries);
    var both := Entry("Acquisitions", AcquisitionsTree(c), processing);
    var settings := Entry("Settings", Mapping(both), NoEntries);
    assert EmitEntries(processing) == [Key, Atom(Str("Processing")), Value] + Emit(ProcessingTree(c));
    assert EmitEntries(both) == [Key, Atom(Str("Acquisitions")), Value] + Emit(AcquisitionsTree(c)) + EmitEntries(processing);
    SettingsShape(Emit(VersionTree()), Emit(AcquisitionsTree(c)), EmitEntries(processing), EmitEntries(both), settings, both);
  }

  lemma SettingsShape(
    v: seq<Token>, a: seq<Token>, p: seq<Token>, both: seq<Token>, settings: Entries, inner: Entries)
    requires both == [Key, Atom(Str("Acquisitions")), Value] + a + p
    requires settings == Entry("Settings", Mapping(inner), NoEntries) && EmitEntries(inner) == both
    ensures [BeginMap] + ([Key, Atom(Str("__version__")), Value] + v + EmitEntries(settings)) + [EndMap]
            == [BeginMap] + ([Key, Atom(Str("__version__")), Value] + v)
               + [Key, Atom(Str("Settings"))] + [Value, BeginMap]
               + ([Key, Atom(Str("Acquisitions")), Value] + a) + p + [EndMap] + [EndMap]
  {
    assert EmitEntries(settings) == [Key, Atom(Str("Settings")), Value] + ([BeginMap] + both + [EndMap]);
  }

  /** Reading the written document gives back the parameters it was written from. */
  lemma DocumentRoundTrip(c: CaptureParameters)
    ensures ReadDocument(Emit(SettingsTree(c))) == Some(c)
  {
    ParseEmitted(SettingsTree(c), []);
    assert Emit(SettingsTree(c)) + [] == Emit(SettingsTree(c));
    ReadSettingsTree(c);
  }

  /** The document's version. */
  lemma DocumentVersion(c: CaptureParameters)
    ensures Child(Child(Some(SettingsTree(c)), "__version__"), "serializer") == Some(Leaf(Int(1)))
    ensures Child(Child(Some(SettingsTree(c)), "__version__"), "data") == Some(Leaf(Int(22)))
  {
    assert "serializer"[0] != "data"[0];
    NextEntry("serializer", Leaf(Int(1)), Entry("data", Leaf(Int(22)), NoEntries), "data");
  }

  lemma NextEntry(k: string, v: Tree, rest: Entries, key: string)
    requires k != key
    ensures Lookup(Entry(k, v, rest), key) == Lookup(rest, key)
  {
  }

  lemma ReadAcquisition(c: CaptureParameters)
    ensures Child(Some(AcquisitionTree(c)), "Aperture") == Some(Leaf(Num(c.aperture)))
    ensures Child(Some(AcquisitionTree(c)), "Brightness") == Some(Leaf(Num(c.projectorBrightness)))
    ensures Child(Some(AcquisitionTree(c)), "ExposureTime") == Some(Leaf(Num(c.exposureTime)))
    ensures Child(Some(AcquisitionTree(c)), "Gain") == Some(Leaf(Num(c.gain)))
  {
    var e4 := Entry("Gain", Leaf(Num(c.gain)), NoEntries);
    var e3 := Entry("ExposureTime", Leaf(Num(c.exposureTime)), e4);
    var e2 := Entry("Brightness", Leaf(Num(c.projectorBrightness)), e3);
    assert "Aperture"[0] != "Brightness"[0] && "Aperture"[0] != "ExposureTime"[0] && "Aperture"[0] != "Gain"[0];
    assert "Brightness"[0] != "ExposureTime"[0] && "Brightness"[0] != "Gain"[0] && "ExposureTime"[0] != "Gain"[0];
    NextEntry("Aperture", Leaf(Num(c.aperture)), e2, "Brightness");
    NextEntry("Aperture", Leaf(Num(c.aperture)), e2, "ExposureTime");
    NextEntry("Brightness", Leaf(Num(c.projectorBrightness)), e3, "ExposureTime");
    NextEntry("Aperture", Leaf(Num(c.aperture)), e2, "Gain");
    NextEntry("Brightness", Leaf(Num(c.projectorBrightness)), e3, "Gain");
    NextEntry("ExposureTime", Leaf(Num(c.exposureTime)), e4, "Gain");
  }

  lemma ReadProcessing(c: CaptureParameters)
    ensures Child(Child(Some(ProcessingTree(c)), "Color"), "Gamma") == Some(Leaf(Num(c.gamma)))
    ensures Child(Child(Child(Some(ProcessingTree(c)), "Filters"), "Outlier"), "Removal") == Some(RemovalTree(c))
    ensures YesNo(Child(Some(RemovalTree(c)), "Enabled")) == Some(c.outlierRemovalEnabled)
    ensures Child(Some(RemovalTree(c)), "Threshold") == Some(Leaf(Num(c.outlierRemovalThreshold)))
  {
    var filters := Entry("Filters", Only("Outlier", Only("Removal", RemovalTree(c))), NoEntries);
    var threshold := Entry("Threshold", Leaf(Num(c.outlierRemovalThreshold)), NoEntries);
    assert "Color"[0] != "Filters"[0] && "Enabled"[0] != "Threshold"[0] && "yes"[0] != "no"[0];
    NextEntry("Color", Only("Gamma", Leaf(Num(c.gamma))), filters, "Filters");
    NextEntry("Enabled", Leaf(Str(if c.outlierRemovalEnabled then "yes" else "no")), threshold, "Threshold");
  }

  lemma ReadSettingsTree(c: CaptureParameters)
    ensures ReadTree(SettingsTree(c)) == Some(c)
  {
    var processing := Entry("Processing", ProcessingTree(c), NoEntries);
    var both := Entry("Acquisitions", AcquisitionsTree(c), processing);
    var settings := Entry("Settings", Mapping(both), NoEntries);
    assert "__version__"[0] != "Settings"[0] && "Acquisitions"[0] != "Processing"[0];
    NextEntry("__version__", VersionTree(), settings, "Settings");
    NextEntry("Acquisitions", AcquisitionsTree(c), processing, "Processing");
    assert Child(Some(SettingsTree(c)), "Settings") == Some(Mapping(both));
    assert Child(First(Some(AcquisitionsTree(c))), "Acquisition") == Some(AcquisitionTree(c));
    assert Child(Some(Mapping(both)), "Processing") == Some(ProcessingTree(c));
    ReadAcquisition(c);
    ReadProcessing(c);
  }

  // ----- Batches -----

  /** A request to the camera node: one parameter handed on, or a whole settings document. */
  datatype Push = HandOn(p: Param) | Settings(document: seq<Token>)

  predicate IsIndividual(p: Param) {
    FieldOf(p.name).Some?
  }

  /** Does the batch bring settings of its own, so that no document is generated? */
  predicate BringsSettings(batch: Batch) {
    exists i :: 0 <= i < |batch| && IsWholeSettings(batch[i].name) && batch[i].value.s != ""
  }

  predicate ChangesIndividual(batch: Batch) {
    exists i :: 0 <= i < |batch| && IsIndividual(batch[i])
  }

  predicate NamesSettings(batch: Batch) {
    exists i :: 0 <= i < |batch| && IsWholeSettings(batch[i].name)
  }

  function HandedOn(batch: Batch): seq<Push> {
    if batch == [] then []
    else
      HandedOn(batch[..|batch| - 1])
      + if IsIndividual(batch[|batch| - 1]) then [] else [HandOn(batch[|batch| - 1])]
  }

  function Pushes(c: CaptureParameters, batch: Batch): seq<Push> {
    HandedOn(batch)
    + if ChangesIndividual(batch) && !BringsSettings(batch)
      then [Settings(Emit(SettingsTree(Fold(c, batch))))]
      else []
  }

  /** The adapter's capture_params_, and what it sent to the camera node so far. */
  class SettingsKeeper {
    var params: CaptureParameters
    var pushed: seq<Push>

    constructor ()
      ensures params == BOOT_DEFAULTS && pushed == [Settings(Emit(SettingsTree(BOOT_DEFAULTS)))]
      ensures params == CaptureParameters(8333.0, 1.0, 1.0, 1.0, 5.66, true, 5.0)
    {
      params := BOOT_DEFAULTS;
      var document := GenerateZividSettings(BOOT_DEFAULTS);
      pushed := [Settings(document)];
    }

    /** The body of the loop. */
    method SetOne(p: Param) returns (individual: bool)
      requires WellTyped(p)
      modifies this
      ensures individual == IsIndividual(p)
      ensures params == Assign(old(params), p)
      ensures pushed == old(pushed) + if individual then [] else [HandOn(p)]
    {
      individual := true;
      match FieldOf(p.name)
      case Some(ExposureTime) => params := params.(exposureTime := p.value.r);
      case Some(Gain) => params := params.(gain := p.value.r);
      case Some(Gamma) => params := params.(gamma := p.value.r);
      case Some(ProjectorBrightness) => params := params.(projectorBrightness := p.value.r);
      case Some(Aperture) => params := params.(aperture := p.value.r);
      case Some(OutlierRemovalEnabled) => params := params.(outlierRemovalEnabled := p.value.b);
      case Some(OutlierRemovalThreshold) => params := params.(outlierRemovalThreshold := p.value.r);
      case None =>
        pushed := pushed + [HandOn(p)];
        individual := false;
    }

    method SetParameters(batch: Batch)
      modifies this
      ensures params == Fold(old(params), batch)
      ensures pushed == old(pushed) + Pushes(old(params), batch)
    {
      var fullYamlProvided := BringsSettings(batch);
      var individualParamChanged := false;
      for i := 0 to |batch|
        invariant params == Fold(old(params), batch[..i])
        invariant pushed == old(pushed) + HandedOn(batch[..i])
        invariant individualParamChanged == ChangesIndividual(batch[..i])
      {
        MoreChanges(batch, i);
        OneMoreEntry(old(params), old(pushed), batch, i);
        var individual := SetOne(batch[i]);
        individualParamChanged := individualParamChanged || individual;
      }
      assert batch[..|batch|] == batch;
      if individualParamChanged && !fullYamlProvided {
        var document := GenerateZividSettings(params);
        pushed := pushed + [Settings(document)];
      }
    }
  }

  lemma OneMoreEntry(c: CaptureParameters, before: seq<Push>, batch: Batch, i: nat)
    requires i < |batch|
    ensures Fold(c, batch[..i + 1]) == Assign(Fold(c, batch[..i]), batch[i])
    ensures before + HandedOn(batch[..i + 1])
            == before + HandedOn(batch[..i]) + if IsIndividual(batch[i]) then [] else [HandOn(batch[i])]
  {
    var upTo := batch[..i + 1];
    assert upTo[..i] == batch[..i] && upTo[i] == batch[i];
  }

  lemma MoreChanges(batch: Batch, i: nat)
    requires i < |batch|
    ensures ChangesIndividual(batch[..i + 1]) <==> ChangesIndividual(batch[..i]) || IsIndividual(batch[i])
  {
    if k :| 0 <= k < i && IsIndividual(batch[..i][k]) {
      assert IsIndividual(batch[..i + 1][k]);
    }
    if IsIndividual(batch[i]) {
      assert IsIndividual(batch[..i + 1][i]);
    }
  }

  // ----- Do the camera's settings say what the record says? -----

  predicate ReplacesSettings(push: Push) {
    push.Settings? || IsWholeSettings(push.p.name)
  }

  /** The request that determines the camera's settings: the last one that replaces them. */
  function InForce(pushed: seq<Push>): Option<Push> {
    if pushed == [] then None
    else if ReplacesSettings(pushed[|pushed| - 1]) then Some(pushed[|pushed| - 1])
    else InForce(pushed[..|pushed| - 1])
  }

  /** What the settings say that a user sends as a text or as a file. The text form of a document is
      not modelled, so this is any function. */
  type Reader = Param -> Option<CaptureParameters>

  /** What the camera's settings say after these requests. */
  function CameraSettings(read: Reader, pushed: seq<Push>): Option<CaptureParameters> {
    match InForce(pushed)
    case None => None
    case Some(HandOn(p)) => read(p)
    case Some(Settings(document)) => ReadDocument(document)
  }

  predicate Agree(read: Reader, c: CaptureParameters, pushed: seq<Push>) {
    CameraSettings(read, pushed) == Some(c)
  }

  /** The last entry of a batch that replaces the camera's settings as a whole. */
  function LastWhole(batch: Batch): Option<Param> {
    if batch == [] then None
    else if IsWholeSettings(batch[|batch| - 1].name) then Some(batch[|batch| - 1])
    else LastWhole(batch[..|batch| - 1])
  }

  ghost predicate IsLastWhole(batch: Batch, i: int) {
    0 <= i < |batch| && IsWholeSettings(batch[i].name) && forall j :: i < j < |batch| ==> !IsWholeSettings(batch[j].name)
  }

  lemma {:induction false} LastWholeMeaning(batch: Batch)
    ensures LastWhole(batch) == None <==> !NamesSettings(batch)
    ensures LastWhole(batch).Some? ==> exists i :: IsLastWhole(batch, i) && batch[i] == LastWhole(batch).value
  {
    if batch != [] {
      var n := |batch| - 1;
      LastWholeMeaning(batch[..n]);
      NamesSettingsLast(batch);
      if IsWholeSettings(batch[n].name) {
        assert IsLastWhole(batch, n);
      } else if LastWhole(batch).Some? {
        var i :| IsLastWhole(batch[..n], i) && batch[..n][i] == LastWhole(batch).value;
        LastInFront(batch, i);
      }
    }
  }

  lemma LastInFront(batch: Batch, i: int)
    requires batch != [] && IsLastWhole(batch[..|batch| - 1], i) && !IsWholeSettings(batch[|batch| - 1].name)
    ensures IsLastWhole(batch, i)
  {
    var front := batch[..|batch| - 1];
    forall j | i < j < |batch|
      ensures !IsWholeSettings(batch[j].name)
    {
      if j < |front| {
        assert !IsWholeSettings(front[j].name);
      }
    }
  }

  lemma {:induction false} InForceBehind(a: seq<Push>, b: seq<Push>)
    ensures InForce(a + b) == if InForce(b).Some? then InForce(b) else InForce(a)
  {
    if b == [] {
      assert a + b == a;
    } else {
      assert (a + b)[..|a + b| - 1] == a + b[..|b| - 1];
      InForceBehind(a, b[..|b| - 1]);
    }
  }

  lemma NamesSettingsLast(batch: Batch)
    requires batch != []
    ensures NamesSettings(batch) <==> NamesSettings(batch[..|batch| - 1]) || IsWholeSettings(batch[|batch| - 1].name)
  {
    var n := |batch| - 1;
    if i :| 0 <= i < n && IsWholeSettings(batch[..n][i].name) {
      assert IsWholeSettings(batch[i].name);
    }
    if i :| 0 <= i < n && IsWholeSettings(batch[i].name) {
      assert IsWholeSettings(batch[..n][i].name);
    }
  }

  lemma InForceOfOne(p: Push)
    ensures InForce([p]) == if ReplacesSettings(p) then Some(p) else None
  {
  }

  lemma {:induction false} HandedOnInForce(batch: Batch)
    ensures InForce(HandedOn(batch))
            == match LastWhole(batch)
               case Some(p) => Some(HandOn(p))
               case None => None
  {
    if batch != [] {
      var front, p := batch[..|batch| - 1], batch[|batch| - 1];
      HandedOnInForce(front);
      WholeSettingsAreNoField(p.name);
      InForceBehind(HandedOn(front), [HandOn(p)]);
      InForceOfOne(HandOn(p));
      if IsIndividual(p) {
        assert HandedOn(batch) == HandedOn(front);
      }
    }
  }

  lemma WholeSettingsAreNoField(name: string)
    ensures IsWholeSettings(name) ==> FieldOf(name) == None
  {
    assert "settings_yaml"[0] == 's' && "settings_file_path"[0] == 's';
    assert "exposure_time"[0] != 's' && "ExposureTime"[0] != 's' && "gain"[0] != 's' && "Gain"[0] != 's';
    assert "gamma"[0] != 's' && "Gamma"[0] != 's' && "projector_brightness"[0] != 's' && "brightness"[0] != 's';
    assert "Brightness"[0] != 's' && "aperture"[0] != 's' && "Aperture"[0] != 's';
    assert "outlier_removal_enabled"[0] != 's' && "OutlierRemovalEnabled"[0] != 's';
    assert "outlier_removal_threshold"[0] != 's' && "OutlierRemovalThreshold"[0] != 's';
  }

  /** Main result. After a batch, the camera's settings say what the record says exactly when: the
      batch changed individual parameters and brought no settings of its own; or the settings that it
      named last happen to say the same as the new record; or it touched neither and they agreed
      before. */
  lemma AgreementAfterBatch(read: Reader, c: CaptureParameters, pushed: seq<Push>, batch: Batch)
    ensures var brings := exists i :: 0 <= i < |batch| && IsWholeSettings(batch[i].name) && batch[i].value.s != "";
            Agree(read, Fold(c, batch), pushed + Pushes(c, batch))
            <==> if ChangesIndividual(batch) && !brings then true
                 else match LastWhole(batch)
                      case Some(p) => read(p) == Some(Fold(c, batch))
                      case None => Agree(read, c, pushed)
  {
    HandedOnInForce(batch);
    InForceBehind(pushed, Pushes(c, batch));
    if ChangesIndividual(batch) && !BringsSettings(batch) {
      var document := Emit(SettingsTree(Fold(c, batch)));
      InForceBehind(HandedOn(batch), [Settings(document)]);
      DocumentRoundTrip(Fold(c, batch));
    } else {
      assert Pushes(c, batch) == HandedOn(batch);
      if LastWhole(batch) == None {
        LastWholeMeaning(batch);
        BringingIsNaming(batch);
        NothingIndividual(c, batch);
      }
    }
  }

  lemma BringingIsNaming(batch: Batch)
    ensures BringsSettings(batch) ==> NamesSettings(batch)
  {
    if i :| 0 <= i < |batch| && IsWholeSettings(batch[i].name) && batch[i].value.s != "" {
      assert IsWholeSettings(batch[i].name);
    }
  }

  /** Settings that the user brings stay in force: nothing is generated in that batch, and the last
      whole settings that it names are the ones that count. */
  lemma BroughtSettingsStay(c: CaptureParameters, pushed: seq<Push>, batch: Batch)
    requires exists i :: 0 <= i < |batch| && IsWholeSettings(batch[i].name) && batch[i].value.s != ""
    ensures LastWhole(batch).Some?
    ensures InForce(pushed + Pushes(c, batch)) == Some(HandOn(LastWhole(batch).value))
    ensures forall push :: push in Pushes(c, batch) ==> push.HandOn?
  {
    assert BringsSettings(batch) && Pushes(c, batch) == HandedOn(batch);
    BringingIsNaming(batch);
    LastWholeMeaning(batch);
    HandedOnInForce(batch);
    InForceBehind(pushed, HandedOn(batch));
    OnlyHandedOn(batch);
  }

  lemma {:induction false} OnlyHandedOn(batch: Batch)
    ensures forall push :: push in HandedOn(batch) ==> push.HandOn?
  {
    if batch != [] {
      OnlyHandedOn(batch[..|batch| - 1]);
    }
  }

  /** A batch that changes an individual parameter, and whose whole settings, if any, are all empty, ends
      with one document, generated from the new record; any other batch generates none. */
  lemma GeneratedDocument(c: CaptureParameters, batch: Batch)
    ensures var changes := exists i :: 0 <= i < |batch| && FieldOf(batch[i].name).Some?;
            var brings := exists i :: 0 <= i < |batch| && IsWholeSettings(batch[i].name) && batch[i].value.s != "";
            Pushes(c, batch)
            == HandedOn(batch) + if changes && !brings then [Settings(Emit(SettingsTree(Fold(c, batch))))] else []
  {
    assert ChangesIndividual(batch) <==> exists i :: 0 <= i < |batch| && FieldOf(batch[i].name).Some?;
  }

  /** Entry i is handed on, behind the handed-on entries before it and before those behind it, exactly
      when it names no individual parameter. */
  lemma {:induction false} HandedOnAt(batch: Batch, i: nat)
    requires i < |batch|
    ensures var front, rest := HandedOn(batch[..i]), HandedOn(batch[i + 1..]);
            HandedOn(batch) == front + (if FieldOf(batch[i].name).Some? then [] else [HandOn(batch[i])]) + rest
  {
    assert batch == batch[..i + 1] + batch[i + 1..];
    HandedOnDistributes(batch[..i + 1], batch[i + 1..]);
    assert batch[..i + 1][..i] == batch[..i];
  }

  lemma {:induction false} HandedOnDistributes(a: Batch, b: Batch)
    ensures HandedOn(a + b) == HandedOn(a) + HandedOn(b)
  {
    if b == [] {
      assert a + b == a;
    } else {
      var front, p := b[..|b| - 1], b[|b| - 1];
      assert (a + b)[..|a + b| - 1] == a + front && (a + b)[|a + b| - 1] == p;
      HandedOnDistributes(a, front);
      ConcatenationIsAssociative(HandedOn(a), HandedOn(front), if IsIndividual(p) then [] else [HandOn(p)]);
    }
  }

  lemma ConcatenationIsAssociative<T>(a: seq<T>, b: seq<T>, c: seq<T>)
    ensures (a + b) + c == a + (b + c)
  {
  }

  lemma {:induction false} NothingIndividual(c: CaptureParameters, batch: Batch)
    requires !ChangesIndividual(batch)
    ensures Fold(c, batch) == c
  {
    if batch != [] {
      var n := |batch| - 1;
      assert !IsIndividual(batch[n]);
      assert forall i :: 0 <= i < n ==> batch[..n][i] == batch[i];
      NothingIndividual(c, batch[..n]);
    }
  }

  datatype Keeper = Keeper(params: CaptureParameters, pushed: seq<Push>)

  const CONSTRUCTED := Keeper(BOOT_DEFAULTS, [Settings(Emit(SettingsTree(BOOT_DEFAULTS)))])

  function Run(batches: seq<Batch>): Keeper {
    if batches == [] then CONSTRUCTED
    else
      var k := Run(batches[..|batches| - 1]);
      var batch := batches[|batches| - 1];
      Keeper(Fold(k.params, batch), k.pushed + Pushes(k.params, batch))
  }

  function Concatenation(batches: seq<Batch>): Batch {
    if batches == [] then [] else Concatenation(batches[..|batches| - 1]) + batches[|batches| - 1]
  }

  /** In every run without settings_yaml and settings_file_path, after construction and after each
      batch, the camera's settings encode the record, and the record is the fold of all entries. */
  lemma {:induction false} RunsAgree(read: Reader, batches: seq<Batch>)
    ensures Run(batches).params == Fold(BOOT_DEFAULTS, Concatenation(batches))
    ensures (forall i :: 0 <= i < |batches| ==> !NamesSettings(batches[i])) ==>
              Agree(read, Run(batches).params, Run(batches).pushed)
  {
    if batches == [] {
      DocumentRoundTrip(BOOT_DEFAULTS);
    } else {
      var n := |batches| - 1;
      RunsAgree(read, batches[..n]);
      FoldOfConcatenation(BOOT_DEFAULTS, Concatenation(batches[..n]), batches[n]);
      if forall i :: 0 <= i < |batches| ==> !NamesSettings(batches[i]) {
        assert forall i :: 0 <= i < n ==> batches[..n][i] == batches[i];
        assert !NamesSettings(batches[n]);
        LastWholeMeaning(batches[n]);
        AgreementAfterBatch(read, Run(batches[..n]).params, Run(batches[..n]).pushed, batches[n]);
      }
    }
  }
}
