/**
 * MRImateExperiment: the header fields the experiment reads, the volume it
 * loads and prepares in place, and the text of its summary.
 */
module MRImate {
  import opened Wrappers
  import opened NdArray
  import opened Preparation

  /** The header fields of a Philips PAR file that the experiment uses. */
  datatype Header = Header(
    SeriesDataType: string,
    ExaminationDateTime: string,
    Technique: string,
    ScanResolution: seq<int>,
    MaxNumberOfSlicesLocations: int,
    MaxNumberOfDynamics: int,
    PhaseEncodingVelocity: (real, real, real),
    Diffusion: int)

  /** What load leaves in the data field: the raw volume cropped, then reshaped. */
  function Prepare(raw: Volume, h: Header): (r: Result<Volume, Error>)
    requires WellFormed(raw)
  {
    match CropPadding(raw)
    case Err(e) => Err(e)
    case Ok(c) => Reshape(c, h.MaxNumberOfSlicesLocations, h.MaxNumberOfDynamics)
  }

  /**
   * A prepared volume is the cropped volume with shape (d0, d1, slices,
   * dynamics), and the element-count check is made against the CROPPED
   * volume, not the raw one.
   */
  lemma PrepareSpec(raw: Volume, h: Header)
    requires WellFormed(raw)
    ensures Prepare(raw, h).Ok? <==>
      && CropPadding(raw).Ok?
      && var c := CropPadding(raw).value;
         h.MaxNumberOfSlicesLocations >= 0 && h.MaxNumberOfDynamics >= 0 &&
         c.shape[0] * c.shape[1] * h.MaxNumberOfSlicesLocations * h.MaxNumberOfDynamics == |c.data|
    ensures Prepare(raw, h).Ok? ==>
      var c := CropPadding(raw).value;
      var w := Prepare(raw, h).value;
      && WellFormed(w)
      && w.data == c.data
      && w.shape == [c.shape[0], c.shape[1], h.MaxNumberOfSlicesLocations as nat, h.MaxNumberOfDynamics as nat]
    ensures CropPadding(raw).Err? ==> Prepare(raw, h) == Err(CropPadding(raw).error)
  {
    if CropPadding(raw).Ok? {
      ReshapeSpec(CropPadding(raw).value, h.MaxNumberOfSlicesLocations, h.MaxNumberOfDynamics);
    }
  }

  /**
   * A raw volume whose element count matches the header can still fail:
   * the raw (1, 1, 2, 1) volume [5, 0] holds 1*1*2*1 voxels, but after the
   * zero plane is cropped only one voxel remains for the 2 slices.
   */
  lemma CountCheckedAfterCrop()
    ensures var raw := Volume([5, 0], [1, 1, 2, 1]);
      var h := Header("", "", "", [1, 1], 2, 1, (0.0, 0.0, 0.0), 0);
      && WellFormed(raw)
      && Reshape(raw, 2, 1).Ok?
      && Prepare(raw, h) == Err(ShapeMismatch)
  {
    var raw := Volume([5, 0], [1, 1, 2, 1]);
    var h := Header("", "", "", [1, 1], 2, 1, (0.0, 0.0, 0.0), 0);
    ExampleCrop();
    ReshapeSpec(raw, 2, 1);
    var c := CropPadding(raw).value;
    ReshapeSpec(c, 2, 1);
    assert Prepare(raw, h) == Reshape(c, 2, 1);
  }

  /** The example volume is well formed and its only non-zero voxel is the origin. */
  lemma ExampleBox()
    ensures WellFormed(Volume([5, 0], [1, 1, 2, 1]))
    ensures BoundingBox(Volume([5, 0], [1, 1, 2, 1])) == Some(Box([0, 0, 0, 0], [0, 0, 0, 0]))
  {
    var raw := Volume([5, 0], [1, 1, 2, 1]);
    ExampleOrigin();
    assert BoxUpTo(raw, 1) == Some(Box([0, 0, 0, 0], [0, 0, 0, 0]));
  }

  lemma ExampleOrigin()
    ensures WellFormed(Volume([5, 0], [1, 1, 2, 1]))
    ensures Unflatten([1, 1, 2, 1], 0) == [0, 0, 0, 0]
  {
    ProductOfFour([1, 1, 2, 1]);
    OffsetOfFour(1, 1, 2, 1, 0, 0, 0, 0);
    UnflattenOffset([1, 1, 2, 1], [0, 0, 0, 0]);
  }

  /** Cropping the example leaves a single voxel of shape (1, 1, 1, 1). */
  lemma ExampleCrop()
    ensures WellFormed(Volume([5, 0], [1, 1, 2, 1]))
    ensures var c := CropPadding(Volume([5, 0], [1, 1, 2, 1]));
      c.Ok? && c.value.shape == [1, 1, 1, 1] && |c.value.data| == 1
  {
    ExampleBox();
    var c := CropPadding(Volume([5, 0], [1, 1, 2, 1]));
    assert c.value.shape == [1, 1, 1, 1];
    ProductOfFour(c.value.shape);
  }

  /**
   * An experiment. Python leaves `parameters` and `data` unassigned until
   * load; None stands for an attribute that is not yet assigned, whose read
   * raises AttributeError (Unloaded).
   */
  class Experiment {
    var parameters: Option<Header>
    var data: Option<Volume>

    ghost predicate Valid()
      reads this
    {
      data.Some? ==> WellFormed(data.value)
    }

    constructor ()
      ensures Valid() && parameters == None && data == None
    {
      parameters := None;
      data := None;
    }

    /**
     * load: store the header and the raw volume handed over by the PAR/REC
     * readers, then crop and reshape the data field in that order. A failing
     * step leaves the data field as the step before it left it.
     */
    method Load(header: Header, raw: Volume) returns (err: Option<Error>)
      requires Valid() && WellFormed(raw)
      modifies this
      ensures Valid() && parameters == Some(header)
      ensures err.None? <==> Prepare(raw, header).Ok?
      ensures err.None? ==> data == Some(Prepare(raw, header).value)
      ensures err.Some? ==> err == Some(Prepare(raw, header).error)
      ensures CropPadding(raw).Err? ==> data == Some(raw)
      ensures CropPadding(raw).Ok? && err.Some? ==> data == Some(CropPadding(raw).value)
    {
      parameters := Some(header);
      data := Some(raw);
      err := RemoveUnwantedZeros();
      if err.None? {
        err := ResizeData();
      }
    }

    /** removing_unwanted_zeros: replace the data field by its crop to the non-zero bounding box. */
    method RemoveUnwantedZeros() returns (err: Option<Error>)
      requires Valid()
      modifies this
      ensures Valid() && parameters == old(parameters)
      ensures old(data).None? ==> err == Some(Unloaded) && data == old(data)
      ensures old(data).Some? && CropPadding(old(data).value).Ok? ==>
        err == None && data == Some(CropPadding(old(data).value).value)
      ensures old(data).Some? && CropPadding(old(data).value).Err? ==>
        err == Some(CropPadding(old(data).value).error) && data == old(data)
    {
      if data.None? {
        return Some(Unloaded);
      }
      var cropped := CropPadding(data.value);
      if cropped.Err? {
        return Some(cropped.error);
      }
      data := Some(cropped.value);
      err := None;
    }

    /**
     * resize_data: reshape the data field to (d0, d1, slices, dynamics). The
     * target tuple is built left to right, so the data's first two extents
     * are read before the header is.
     */
    method ResizeData() returns (err: Option<Error>)
      requires Valid()
      modifies this
      ensures Valid() && parameters == old(parameters)
      ensures old(data).None? ==> err == Some(Unloaded) && data == old(data)
      ensures old(data).Some? && |old(data).value.shape| < 2 ==> err == Some(MissingAxis) && data == old(data)
      ensures old(data).Some? && |old(data).value.shape| >= 2 && old(parameters).None? ==>
        err == Some(Unloaded) && data == old(data)
      ensures old(data).Some? && old(parameters).Some? ==>
        var r := Reshape(old(data).value, old(parameters).value.MaxNumberOfSlicesLocations,
                         old(parameters).value.MaxNumberOfDynamics);
        && (r.Ok? ==> err == None && data == Some(r.value))
        && (r.Err? ==> err == Some(r.error) && data == old(data))
    {
      if data.None? {
        return Some(Unloaded);
      }
      if |data.value.shape| < 2 {
        return Some(MissingAxis);
      }
      if parameters.None? {
        return Some(Unloaded);
      }
      var p := parameters.value;
      var reshaped := Reshape(data.value, p.MaxNumberOfSlicesLocations, p.MaxNumberOfDynamics);
      if reshaped.Err? {
        return Some(reshaped.error);
      }
      data := Some(reshaped.value);
      err := None;
    }

    /**
     * describe: the summary text, returned instead of printed. The date is
     * rendered by `formatDate`, which stands for the strptime/strftime pair.
     */
    method Describe(formatDate: string -> string) returns (r: Result<string, Error>)
      ensures parameters.None? ==> r == Err(Unloaded)
      ensures parameters.Some? && |parameters.value.ScanResolution| < 2 ==> r == Err(MissingEntry)
      ensures parameters.Some? && |parameters.value.ScanResolution| >= 2 ==>
        r == Ok(Description(parameters.value, formatDate))
    {
      if parameters.None? {
        return Err(Unloaded);
      }
      var p := parameters.value;
      // the resolution line reads ScanResolution[0] and ScanResolution[1]
      if |p.ScanResolution| < 2 {
        return Err(MissingEntry);
      }
      var description := "Experiment Details:\n";
      description := description + "- Type: " + p.SeriesDataType + "\n";
      description := description + "- Date: " + formatDate(p.ExaminationDateTime) + "\n\n";
      description := description + "Scan Information:\n";
      var dimension := Dimension(p.SeriesDataType);
      description := description + "- Technique: " + p.Technique + "\n";
      description := description + "- Dimension: " + dimension + "\n";
      description := description + "- Resolution: " + IntToString(p.ScanResolution[0]) + "x"
        + IntToString(p.ScanResolution[1]) + " pixels\n";
      description := description + "- Slices: " + IntToString(p.MaxNumberOfSlicesLocations) + "\n";
      description := description + "- Dynamics: " + DynamicsText(p.MaxNumberOfDynamics) + "\n";
      description := description + "- Flow Encoding: " + FlowEncodingText(p.PhaseEncodingVelocity) + "\n";
      description := description + "- Diffusion Encoding: " + DiffusionText(p.Diffusion) + "\n";
      return Ok(description);
    }
  }

  /** The summary text, line by line. */
  function Description(p: Header, formatDate: string -> string): string
    requires |p.ScanResolution| >= 2
  {
    DescriptionHead(p, formatDate) + "- Diffusion Encoding: " + DiffusionText(p.Diffusion) + "\n"
  }

  /** Every line of the summary before the diffusion line. */
  function DescriptionHead(p: Header, formatDate: string -> string): string
    requires |p.ScanResolution| >= 2
  {
    "Experiment Details:\n"
    + "- Type: " + p.SeriesDataType + "\n"
    + "- Date: " + formatDate(p.ExaminationDateTime) + "\n\n"
    + "Scan Information:\n"
    + "- Technique: " + p.Technique + "\n"
    + "- Dimension: " + Dimension(p.SeriesDataType) + "\n"
    + "- Resolution: " + IntToString(p.ScanResolution[0]) + "x" + IntToString(p.ScanResolution[1]) + " pixels\n"
    + "- Slices: " + IntToString(p.MaxNumberOfSlicesLocations) + "\n"
    + "- Dynamics: " + DynamicsText(p.MaxNumberOfDynamics) + "\n"
    + "- Flow Encoding: " + FlowEncodingText(p.PhaseEncodingVelocity) + "\n"
  }

  /** `t` occurs in `s` starting at position i. */
  predicate OccursAt(s: string, t: string, i: nat)
  {
    i + |t| <= |s| && s[i..i + |t|] == t
  }

  /** `t` occurs in `s` (Python's `t in s` on strings). */
  ghost predicate HasSubstring(s: string, t: string)
  {
    exists i: nat :: OccursAt(s, t, i)
  }

  /** The substring test, scanning `s` from its start. */
  function Contains(s: string, t: string): (b: bool)
    ensures b <==> HasSubstring(s, t)
    decreases |s|
  {
    if |s| < |t| then false
    else if s[..|t|] == t then assert OccursAt(s, t, 0); true
    else
      var b := Contains(s[1..], t);
      assert b ==> HasSubstring(s, t) by {
        if b {
          var i: nat :| OccursAt(s[1..], t, i);
          assert s[1..][i..i + |t|] == s[i + 1..i + 1 + |t|];
          assert OccursAt(s, t, i + 1);
        }
      }
      assert HasSubstring(s, t) ==> b by {
        if HasSubstring(s, t) {
          var i: nat :| OccursAt(s, t, i);
          assert i != 0;
          assert s[1..][i - 1..i - 1 + |t|] == s[i..i + |t|];
          assert OccursAt(s[1..], t, i - 1);
        }
      }
      b
  }

  /** Dimension label: "3D" exactly when the series data type contains "3D", otherwise "2D". */
  function Dimension(seriesDataType: string): (d: string)
    ensures d == "3D" <==> HasSubstring(seriesDataType, "3D")
    ensures d == "2D" <==> !HasSubstring(seriesDataType, "3D")
  {
    if Contains(seriesDataType, "3D") then "3D" else "2D"
  }

  function DigitChar(d: nat): (c: char)
    requires d < 10
    ensures '0' <= c <= '9'
  {
    ('0' as int + d) as char
  }

  predicate IsDigits(s: string)
  {
    forall i :: 0 <= i < |s| ==> '0' <= s[i] <= '9'
  }

  /** The number a string of decimal digits spells, most significant digit first. */
  function DecimalValue(s: string): nat
    requires IsDigits(s)
  {
    if |s| == 0 then 0 else DecimalValue(s[..|s| - 1]) * 10 + (s[|s| - 1] as int - '0' as int)
  }

  /** Decimal digits of a natural number, as Python's str: no leading zero, and they spell n. */
  function NatToString(n: nat): (s: string)
    ensures |s| > 0 && IsDigits(s)
    ensures |s| > 1 ==> s[0] != '0'
    ensures DecimalValue(s) == n
  {
    if n < 10 then [DigitChar(n)]
    else
      var prefix := NatToString(n / 10);
      var s := prefix + [DigitChar(n % 10)];
      assert s[..|s| - 1] == prefix;
      s
  }

  /** Python's str of an int: a minus sign exactly for negative numbers, then the digits of |n|. */
  function IntToString(n: int): (s: string)
    ensures |s| > 0 && (s[0] == '-' <==> n < 0)
    ensures n >= 0 ==> IsDigits(s) && DecimalValue(s) == n
    ensures n < 0 ==> IsDigits(s[1..]) && DecimalValue(s[1..]) == -n
    ensures n >= 0 && |s| > 1 ==> s[0] != '0'
    ensures n < 0 ==> |s| >= 2 && s[1] != '0'
  {
    if n < 0 then
      var digits := NatToString(-n);
      assert ("-" + digits)[1..] == digits;
      assert |digits| == 1 ==> digits[..0] == [] && DecimalValue(digits) == digits[0] as int - '0' as int;
      "-" + digits
    else NatToString(n)
  }

  /** Dynamics field: "None" exactly when there is at most one dynamic, otherwise the count. */
  function DynamicsText(maxNumberOfDynamics: int): (t: string)
    ensures t == "None" <==> maxNumberOfDynamics <= 1
    ensures maxNumberOfDynamics > 1 ==> t == IntToString(maxNumberOfDynamics)
  {
    if maxNumberOfDynamics > 1 then IntToString(maxNumberOfDynamics) else "None"
  }

  /** Python truthiness of a tuple: it is true when the tuple is not empty. */
  predicate TupleTruthy(items: seq<real>)
  {
    |items| != 0
  }

  /**
   * Flow Encoding field: the test is the truthiness of the 3-tuple of
   * encoding velocities, which is never empty, so the field always reads
   * "Yes", even for (0, 0, 0).
   */
  function FlowEncodingText(phaseEncodingVelocity: (real, real, real)): (t: string)
    ensures t == "Yes"
  {
    var v := phaseEncodingVelocity;
    if TupleTruthy([v.0, v.1, v.2]) then "Yes" else "No"
  }

  /** Diffusion Encoding field: "Yes" exactly when the diffusion flag is non-zero, otherwise "No". */
  function DiffusionText(diffusion: int): string
  {
    if diffusion != 0 then "Yes" else "No"
  }

  /** `s` ends with `t`. */
  predicate EndsWith(s: string, t: string)
  {
    |t| <= |s| && s[|s| - |t|..] == t
  }

  /**
   * The summary closes with the diffusion line, which reads "Yes" exactly
   * when the Diffusion flag is non-zero and "No" exactly when it is zero.
   */
  lemma DiffusionLine(p: Header, formatDate: string -> string)
    requires |p.ScanResolution| >= 2
    ensures EndsWith(Description(p, formatDate), "- Diffusion Encoding: Yes\n") <==> p.Diffusion != 0
    ensures EndsWith(Description(p, formatDate), "- Diffusion Encoding: No\n") <==> p.Diffusion == 0
  {
    DiffusionTail(DescriptionHead(p, formatDate), p.Diffusion);
  }

  lemma DiffusionTail(head: string, diffusion: int)
    ensures var d := head + "- Diffusion Encoding: " + DiffusionText(diffusion) + "\n";
      && (EndsWith(d, "- Diffusion Encoding: Yes\n") <==> diffusion != 0)
      && (EndsWith(d, "- Diffusion Encoding: No\n") <==> diffusion == 0)
  {
    var text := DiffusionText(diffusion);
    assert text == if diffusion != 0 then "Yes" else "No";
    var line := "- Diffusion Encoding: " + text + "\n";
    var d := head + "- Diffusion Encoding: " + text + "\n";
    assert d == head + line;
    assert d[|d| - |line|..] == line;
    if diffusion != 0 {
      assert line == "- Diffusion Encoding: Yes\n";
      assert d[|d| - 3] == line[|line| - 3] == 'e';
    } else {
      assert line == "- Diffusion Encoding: No\n";
      assert d[|d| - 4] == line[|line| - 4] == ' ';
    }
  }
}
