/** The names the XModel dumper derives: asset names and per-LOD file names. */
module XModelNames {
  import opened XModelData

  /**
   * AssetName: a name stored with a leading ',' (a reference to another zone's
   * asset) loses exactly that one ','; every other name, and the null name,
   * is returned as it is.
   */
  function AssetName(input: Option<string>): (r: Option<string>)
    ensures r.None? <==> input.None?
    ensures input.Some? && |input.value| > 0 && input.value[0] == ',' ==> input.value == [','] + r.value
    ensures input.Some? && (|input.value| == 0 || input.value[0] != ',') ==> r == input
  {
    match input
    case None => None
    case Some(s) => if |s| > 0 && s[0] == ',' then Some(s[1..]) else input
  }

  /** The digit of a value below ten. */
  function Digit(d: nat): (c: char)
    requires d < 10
    ensures '0' <= c <= '9'
  {
    "0123456789"[d]
  }

  /** The value of a decimal digit. */
  function DigitValue(c: char): (d: nat)
    requires '0' <= c <= '9'
    ensures d < 10 && Digit(d) == c
  {
    if c == '0' then 0 else if c == '1' then 1 else if c == '2' then 2 else if c == '3' then 3
    else if c == '4' then 4 else if c == '5' then 5 else if c == '6' then 6 else if c == '7' then 7
    else if c == '8' then 8 else 9
  }

  predicate IsDigits(s: string)
  {
    forall i :: 0 <= i < |s| ==> '0' <= s[i] <= '9'
  }

  /** `{}` formatting of an unsigned value: its decimal digits, most significant first, no leading zero. */
  function Decimal(n: nat): (s: string)
    ensures |s| > 0 && IsDigits(s)
    ensures |s| > 1 ==> s[0] != '0'
  {
    if n < 10 then [Digit(n)] else Decimal(n / 10) + [Digit(n % 10)]
  }

  /** The value a string of decimal digits denotes. */
  function DecimalValue(s: string): nat
    requires IsDigits(s)
  {
    if s == [] then 0 else 10 * DecimalValue(s[..|s| - 1]) + DigitValue(s[|s| - 1])
  }

  lemma {:induction false} DigitRoundTrip(d: nat)
    requires d < 10
    ensures DigitValue(Digit(d)) == d
  {
    assert "0123456789"[0] == '0' && "0123456789"[1] == '1' && "0123456789"[2] == '2';
    assert "0123456789"[3] == '3' && "0123456789"[4] == '4' && "0123456789"[5] == '5';
    assert "0123456789"[6] == '6' && "0123456789"[7] == '7' && "0123456789"[8] == '8';
  }

  /** Reading the formatted digits back gives the number. */
  lemma {:induction false} DecimalRoundTrip(n: nat)
    ensures DecimalValue(Decimal(n)) == n
  {
    if n < 10 {
      DigitRoundTrip(n);
      assert Decimal(n)[..0] == [];
    } else {
      DecimalRoundTrip(n / 10);
      DigitRoundTrip(n % 10);
      var s := Decimal(n);
      assert s[..|s| - 1] == Decimal(n / 10);
    }
  }

  /** `model_export/{name}_lod{lod}{extension}`. */
  function GetFileNameForLod(modelName: string, lod: nat, extension: string): (r: string)
    ensures |r| == 17 + |modelName| + |Decimal(lod)| + |extension|
    ensures r[..17 + |modelName|] == "model_export/" + modelName + "_lod"
    ensures IsDigits(r[17 + |modelName|..|r| - |extension|])
    ensures r[|r| - |extension|..] == extension
  {
    "model_export/" + modelName + "_lod" + Decimal(lod) + extension
  }

  /** Different levels of detail of one model get different file names for one extension. */
  lemma FileNameForLodInjective(modelName: string, a: nat, b: nat, extension: string)
    requires GetFileNameForLod(modelName, a, extension) == GetFileNameForLod(modelName, b, extension)
    ensures a == b
  {
    var prefix := "model_export/" + modelName + "_lod";
    var fa := GetFileNameForLod(modelName, a, extension);
    var da, db := Decimal(a), Decimal(b);
    assert fa == prefix + da + extension;
    assert |da| == |db|;
    assert da == fa[|prefix|..|prefix| + |da|];
    assert db == fa[|prefix|..|prefix| + |db|];
    DecimalRoundTrip(a);
    DecimalRoundTrip(b);
  }

  /**
   * A LOD file name is the export directory, the model name, "_lod", digits
   * that read back as the level of detail, and the extension.
   */
  lemma FileNameForLodLayout(modelName: string, lod: nat, extension: string)
    ensures
      var f := GetFileNameForLod(modelName, lod, extension);
      var digitsStart := |"model_export/"| + |modelName| + |"_lod"|;
      && |f| >= digitsStart + |extension|
      && f[..|"model_export/"|] == "model_export/"
      && f[|"model_export/"|..|"model_export/"| + |modelName|] == modelName
      && f[|f| - |extension|..] == extension
      && IsDigits(f[digitsStart..|f| - |extension|])
      && DecimalValue(f[digitsStart..|f| - |extension|]) == lod
  {
    var f := GetFileNameForLod(modelName, lod, extension);
    var digitsStart := |"model_export/"| + |modelName| + |"_lod"|;
    assert f[digitsStart..|f| - |extension|] == Decimal(lod);
    DecimalRoundTrip(lod);
  }
}
