/**
 * `Problem`: a table of named parameters, each with a list of options, and
 * the decoding of bitlists into option indices. `bitlist_to_int` joins the
 * decimal spellings of the elements and parses the result in base 2, so a
 * list of bits decodes to its big-endian value.
 */
module Problems {
  import opened Base
  import opened Operators
  import Sampling

  datatype Option<T> = None | Some(value: T)

  // ---------------------------------------------------------------------------
  // bitlist_to_int
  // ---------------------------------------------------------------------------

  /** The character of a decimal digit. */
  function DigitChar(d: nat): char
    requires d < 10
  {
    "0123456789"[d]
  }

  /** The decimal spelling of a natural number, without leading zeros. */
  function Decimal(n: nat): (s: string)
    ensures |s| >= 1
  {
    if n < 10 then [DigitChar(n)] else Decimal(n / 10) + [DigitChar(n % 10)]
  }

  /** `str(x)` of an int. */
  function Str(x: int): string {
    if x < 0 then "-" + Decimal(-x) else Decimal(x)
  }

  /** `"".join([str(x) for x in bitlist])`. */
  function Join(bitlist: seq<int>): string {
    if bitlist == [] then "" else Str(bitlist[0]) + Join(bitlist[1..])
  }

  /**
   * `int(s, 2)` on a string made of decimal digits and minus signs, the only
   * characters `Join` produces: an optional leading minus, then at least one
   * binary digit and nothing else.
   */
  function ParseBase2(s: string): (r: Result<int>)
    ensures r.Err? ==> r.error == ValueError
    ensures Sampling.IsBitString(s) && s != [] ==> r == Ok(Sampling.ValueOf(s))
    ensures s == [] ==> r.Err?
  {
    if s == [] then Err(ValueError)
    else if s[0] == '-' then
      if |s| > 1 && Sampling.IsBitString(s[1..]) then Ok(0 - Sampling.ValueOf(s[1..])) else Err(ValueError)
    else if Sampling.IsBitString(s) then Ok(Sampling.ValueOf(s))
    else Err(ValueError)
  }

  /** The `max_value` argument: an int, or the default `math.inf`. */
  datatype Bound = Finite(m: int) | Infinite

  /**
   * `int(x % max_value)`. A zero bound raises `ZeroDivisionError`. Against
   * `math.inf` a non-negative `x` is itself and a negative `x` gives
   * infinity, which `int` refuses with `OverflowError`.
   */
  function ModBound(x: int, bound: Bound): (r: Result<int>)
    ensures bound == Finite(0) ==> r == Err(ZeroDivisionError)
    ensures bound.Finite? && bound.m > 0 ==> r.Ok? && 0 <= r.value < bound.m && r.value == x % bound.m
    ensures bound.Finite? && bound.m < 0 ==> r.Ok? && bound.m < r.value <= 0 && r.value == PyMod(x, bound.m)
    ensures bound == Infinite ==> (r.Ok? <==> x >= 0) && (r.Ok? ==> r.value == x)
    ensures r.Err? ==> r.error == ZeroDivisionError || r.error == OverflowError
  {
    match bound
    case Finite(m) => if m == 0 then Err(ZeroDivisionError) else Ok(PyMod(x, m))
    case Infinite => if x < 0 then Err(OverflowError) else Ok(x)
  }

  /** `bitlist_to_int(bitlist, min_value, max_value)`. */
  function BitlistToInt(bitlist: seq<int>, minValue: int, maxValue: Bound): (r: Result<int>)
    ensures bitlist == [] ==> r == Err(ValueError)
    ensures r.Ok? ==>
      ParseBase2(Join(bitlist)).Ok? && ModBound(ParseBase2(Join(bitlist)).value, maxValue).Ok? &&
      r.value == minValue + ModBound(ParseBase2(Join(bitlist)).value, maxValue).value
    ensures r.Ok? && maxValue.Finite? && maxValue.m > 0 ==> minValue <= r.value < minValue + maxValue.m
  {
    var parsed := ParseBase2(Join(bitlist));
    if parsed.Err? then Err(parsed.error)
    else
      var reduced := ModBound(parsed.value, maxValue);
      if reduced.Err? then Err(reduced.error) else Ok(minValue + reduced.value)
  }

  /** The big-endian value of a list of bits. */
  function BitsValue(bits: seq<int>): int {
    if bits == [] then 0 else bits[0] * Pow2(|bits| - 1) + BitsValue(bits[1..])
  }

  /** Joining the spellings of bits gives the `"01"` string of the same value. */
  lemma {:induction false} JoinOfBits(bits: seq<int>)
    requires IsBits(bits)
    ensures |Join(bits)| == |bits| && Sampling.IsBitString(Join(bits))
    ensures Sampling.ValueOf(Join(bits)) == BitsValue(bits)
  {
    if bits != [] {
      var rest := bits[1..];
      JoinOfBits(rest);
      var c := if bits[0] == 1 then '1' else '0';
      assert Str(bits[0]) == [c];
      Sampling.Prepend(c, Join(rest));
    }
  }

  /**
   * On a non-empty list of bits, `bitlist_to_int` is `min_value` plus the
   * big-endian value modulo a positive bound, so it lies in
   * `[min_value, min_value + max_value)`; against `math.inf` it is the
   * value itself.
   */
  lemma BitlistToIntOfBits(bits: seq<int>, minValue: int, m: int)
    requires IsBits(bits) && bits != [] && m > 0
    ensures BitlistToInt(bits, minValue, Finite(m)) == Ok(minValue + BitsValue(bits) % m)
    ensures minValue <= BitlistToInt(bits, minValue, Finite(m)).value < minValue + m
    ensures BitlistToInt(bits, minValue, Infinite) == Ok(minValue + BitsValue(bits))
  {
    JoinOfBits(bits);
    Sampling.ValueBelow(Join(bits));
  }

  /** Against a zero bound a non-empty list of bits raises `ZeroDivisionError`: `% 0` fails. */
  lemma ZeroBoundRaises(bits: seq<int>, minValue: int)
    requires IsBits(bits) && bits != []
    ensures BitlistToInt(bits, minValue, Finite(0)) == Err(ZeroDivisionError)
  {
    JoinOfBits(bits);
  }

  /** The documented example: `[0,1,0,1,1]` decodes to 11. */
  lemma DocumentedExample()
    ensures BitlistToInt([0, 1, 0, 1, 1], 0, Infinite) == Ok(11)
  {
    BitlistToIntOfBits([0, 1, 0, 1, 1], 0, 1);
    ExampleValue();
  }

  lemma ExampleValue()
    ensures BitsValue([0, 1, 0, 1, 1]) == 11
  {
    Weights();
    assert BitsValue([1]) == 1 by { assert [1][1..] == []; }
    assert BitsValue([1, 1]) == 3 by { assert [1, 1][1..] == [1]; }
    assert BitsValue([0, 1, 1]) == 3 by { assert [0, 1, 1][1..] == [1, 1]; }
    assert BitsValue([1, 0, 1, 1]) == 11 by { assert [1, 0, 1, 1][1..] == [0, 1, 1]; }
    assert [0, 1, 0, 1, 1][1..] == [1, 0, 1, 1];
  }

  lemma Weights()
    ensures Pow2(0) == 1 && Pow2(1) == 2 && Pow2(2) == 4 && Pow2(3) == 8 && Pow2(4) == 16
  {
  }

  /** An element from 2 to 9 spells a digit that base 2 refuses. */
  lemma BigDigitRaises(bitlist: seq<int>, minValue: int, maxValue: Bound)
    requires bitlist != [] && 2 <= bitlist[0] <= 9
    ensures BitlistToInt(bitlist, minValue, maxValue) == Err(ValueError)
  {
    var s := Join(bitlist);
    assert s[0] == DigitChar(bitlist[0]);
  }

  /** The big-endian spelling of `k` in `width` bits. */
  function Spell(k: nat, width: nat): (bits: seq<int>)
    ensures |bits| == width && IsBits(bits)
  {
    if width == 0 then [] else [(k / Pow2(width - 1)) % 2] + Spell(k % Pow2(width - 1), width - 1)
  }

  /** Spelling a number below `2^width` in `width` bits and reading it back gives the number. */
  lemma {:induction false} SpellValue(k: nat, width: nat)
    requires k < Pow2(width)
    ensures BitsValue(Spell(k, width)) == k
  {
    if width > 0 {
      var half := Pow2(width - 1);
      var top, low := k / half, k % half;
      var bits := Spell(k, width);
      TopBit(k, half);
      assert bits == [top] + Spell(low, width - 1);
      assert bits[1..] == Spell(low, width - 1);
      SpellValue(low, width - 1);
      assert BitsValue(bits) == top * half + BitsValue(Spell(low, width - 1));
    }
  }

  /** The top bit of a number below `2 * half`, and what stays below it. */
  lemma TopBit(k: nat, half: nat)
    requires half >= 1 && k < 2 * half
    ensures k / half < 2 && (k / half) % 2 == k / half && k == (k / half) * half + k % half && k % half < half
  {
  }

  /** A number already below a positive modulus is its own remainder. */
  lemma SmallMod(x: int, m: int)
    requires 0 <= x < m
    ensures PyMod(x, m) == x
  {
  }

  // ---------------------------------------------------------------------------
  // The parameter table
  // ---------------------------------------------------------------------------

  /** The number of bits `get_bitlist` gives a parameter: `(len(options) - 1).bit_length()`. */
  function Width(count: nat): nat {
    BitLength(count - 1)
  }

  /** `count` options with at least two need exactly `Width(count)` bits to index them all. */
  lemma WidthFits(count: nat)
    ensures count <= Pow2(Width(count))
    ensures count >= 2 ==> Pow2(Width(count) - 1) < count
  {
    BitLengthBounds(count - 1);
  }

  /** The widths of the named parameters, added up in the order of `names`. */
  function TotalWidth<V>(names: seq<string>, parameters: map<string, seq<V>>): nat
    requires forall n :: n in names ==> n in parameters
  {
    if names == [] then 0
    else TotalWidth(names[..|names| - 1], parameters) + Width(|parameters[names[|names| - 1]]|)
  }

  /** A list of `n` zeros. */
  function Zeros(n: nat): (z: seq<int>)
    ensures |z| == n && forall k :: 0 <= k < n ==> z[k] == 0
  {
    seq(n, k requires 0 <= k < n => 0)
  }

  /** An `index` argument of `get_parameter_value`: an int, a list, or anything else. */
  datatype Index = IntIndex(n: int) | ListIndex(bits: seq<int>) | OtherIndex

  /**
   * A problem: its parameter dictionary, kept as the map from names to
   * option lists and the names in dictionary order.
   */
  class Problem<V> {
    var names: seq<string>
    var parameters: map<string, seq<V>>

    ghost predicate Valid()
      reads this
    {
      (forall i, j :: 0 <= i < j < |names| ==> names[i] != names[j]) &&
      (forall n :: n in parameters <==> n in names)
    }

    /** `__init__`: no parameters. */
    constructor()
      ensures Valid() && names == [] && parameters == map[]
    {
      names := [];
      parameters := map[];
    }

    /**
     * `add_parameter`: set the named entry, which keeps its place when it
     * already exists and goes last otherwise; the other entries stay.
     */
    method AddParameter(name: string, options: seq<V>)
      requires Valid()
      modifies this
      ensures Valid()
      ensures parameters == old(parameters)[name := options]
      ensures names == if name in old(parameters) then old(names) else old(names) + [name]
      ensures forall n :: n in old(parameters) && n != name ==> n in parameters && parameters[n] == old(parameters)[n]
      ensures name !in old(parameters) ==> TotalBits() == old(TotalBits()) + Width(|options|)
      ensures name in old(parameters) ==>
        TotalBits() + Width(|old(parameters)[name]|) == old(TotalBits()) + Width(|options|)
    {
      if name in parameters {
        ReplaceWidth(names, parameters, name, options);
      } else {
        AppendWidth(names, parameters, name, options);
        names := names + [name];
      }
      parameters := parameters[name := options];
    }

    /** The length of the whole problem's bitlist. */
    function TotalBits(): nat
      requires Valid()
      reads this
    {
      TotalWidth(names, parameters)
    }

    /**
     * `get_bitlist(param)`: a non-empty name gives zeros for that parameter
     * (raising `KeyError` when it is missing); no name, or the empty one,
     * gives zeros for the whole problem. The width of a parameter with two
     * or more options is the least that indexes every option; one option
     * gets no bit, and an empty option list one, as `(-1).bit_length()` is 1.
     */
    function GetBitlist(param: Option<string>): (r: Result<seq<int>>)
      requires Valid()
      reads this
      ensures r.Ok? ==> forall k :: 0 <= k < |r.value| ==> r.value[k] == 0
      ensures param.Some? && param.value != "" ==>
        (r.Err? <==> param.value !in parameters) && (r.Err? ==> r.error == KeyError) &&
        (r.Ok? ==>
          |parameters[param.value]| <= Pow2(|r.value|) &&
          (|parameters[param.value]| >= 2 ==> Pow2(|r.value| - 1) < |parameters[param.value]|))
      ensures param.Some? && param.value != "" && param.value in parameters && |parameters[param.value]| <= 1 ==>
        r.Ok? && |r.value| == 1 - |parameters[param.value]|
      ensures param.None? || param.value == "" ==> r == Ok(Zeros(TotalBits()))
    {
      if param.Some? && param.value != "" then
        if param.value in parameters then
          WidthFits(|parameters[param.value]|);
          Ok(Zeros(Width(|parameters[param.value]|)))
        else Err(KeyError)
      else Ok(Zeros(TotalBits()))
    }

    /**
     * `get_parameter_value`: an int index picks the option at the index
     * modulo the number of options; a list index is decoded with
     * `bitlist_to_int` against that number first. Any other index gives
     * `None`. A missing name raises `KeyError`, an empty option list
     * `ZeroDivisionError`.
     */
    function GetParameterValue(name: string, index: Index): (r: Result<Option<V>>)
      reads this
      ensures index.OtherIndex? ==> r == Ok(None)
      ensures !index.OtherIndex? && name !in parameters ==> r == Err(KeyError)
      ensures index.IntIndex? && name in parameters ==>
        var options := parameters[name];
        (|options| == 0 ==> r == Err(ZeroDivisionError)) &&
        (|options| > 0 ==> r == Ok(Some(options[index.n % |options|])))
      ensures index.ListIndex? && name in parameters ==>
        var options, decoded := parameters[name], BitlistToInt(index.bits, 0, Finite(|parameters[name]|));
        (decoded.Err? ==> r == Err(decoded.error)) &&
        (decoded.Ok? ==> 0 <= decoded.value < |options| && r == Ok(Some(options[decoded.value])))
    {
      match index
      case OtherIndex => Ok(None)
      case IntIndex(n) =>
        if name !in parameters then Err(KeyError)
        else
          var options := parameters[name];
          if |options| == 0 then Err(ZeroDivisionError) else Ok(Some(options[PyMod(n, |options|)]))
      case ListIndex(bits) =>
        if name !in parameters then Err(KeyError)
        else
          var options := parameters[name];
          var decoded := BitlistToInt(bits, 0, Finite(|options|));
          if decoded.Err? then Err(decoded.error)
          else
            SmallMod(decoded.value, |options|);
            Ok(Some(options[PyMod(decoded.value, |options|)]))
    }
  }

  /**
   * Round trip: for a parameter with at least two options, spelling any
   * option index in the width `get_bitlist` gives the parameter and
   * decoding it with `get_parameter_value` yields that option.
   */
  lemma ParameterRoundTrip<V>(p: Problem<V>, name: string, k: nat)
    requires p.Valid() && name != "" && name in p.parameters && 2 <= |p.parameters[name]| && k < |p.parameters[name]|
    ensures var width := |p.GetBitlist(Some(name)).value|;
      width >= 1 &&
      p.GetParameterValue(name, ListIndex(Spell(k, width))) == Ok(Some(p.parameters[name][k]))
  {
    var options := p.parameters[name];
    var count := |options|;
    var width := Width(count);
    WidthFits(count);
    assert p.GetBitlist(Some(name)) == Ok(Zeros(width));
    var bits := Spell(k, width);
    SpellValue(k, width);
    BitlistToIntOfBits(bits, 0, count);
    SmallMod(k, count);
    assert BitlistToInt(bits, 0, Finite(count)) == Ok(k);
  }

  /**
   * A parameter with a single option gets an empty bitlist, and decoding
   * the empty bitlist raises `ValueError`: `int("", 2)` refuses it.
   */
  lemma OneOptionBitlistRaises<V>(p: Problem<V>, name: string)
    requires p.Valid() && name != "" && name in p.parameters && |p.parameters[name]| == 1
    ensures p.GetBitlist(Some(name)) == Ok([])
    ensures p.GetParameterValue(name, ListIndex([])) == Err(ValueError)
  {
    assert Width(1) == 0;
    assert Zeros(0) == [];
  }

  /** Appending a name adds its width to the total. */
  lemma AppendWidth<V>(names: seq<string>, parameters: map<string, seq<V>>, name: string, options: seq<V>)
    requires forall n :: n in names ==> n in parameters
    requires name !in names
    ensures TotalWidth(names + [name], parameters[name := options]) ==
      TotalWidth(names, parameters) + Width(|options|)
  {
    var updated := parameters[name := options];
    assert (names + [name])[..|names|] == names;
    UnchangedWidth(names, parameters, updated);
  }

  /** Replacing the options of a listed name changes the total by the difference of the widths. */
  lemma {:induction false} ReplaceWidth<V>(names: seq<string>, parameters: map<string, seq<V>>, name: string, options: seq<V>)
    requires forall n :: n in names ==> n in parameters
    requires forall i, j :: 0 <= i < j < |names| ==> names[i] != names[j]
    requires name in names
    ensures TotalWidth(names, parameters[name := options]) + Width(|parameters[name]|) ==
      TotalWidth(names, parameters) + Width(|options|)
  {
    var updated := parameters[name := options];
    var front, last := names[..|names| - 1], names[|names| - 1];
    assert forall n :: n in front ==> n in names;
    if last == name {
      assert forall n :: n in front ==> n != name;
      UnchangedWidth(front, parameters, updated);
    } else {
      assert name in front;
      ReplaceWidth(front, parameters, name, options);
    }
  }

  /** The total over names whose entries agree in two maps is the same in both. */
  lemma {:induction false} UnchangedWidth<V>(names: seq<string>, a: map<string, seq<V>>, b: map<string, seq<V>>)
    requires forall n :: n in names ==> n in a && n in b && a[n] == b[n]
    ensures TotalWidth(names, a) == TotalWidth(names, b)
  {
    if names != [] {
      var front := names[..|names| - 1];
      assert forall n :: n in front ==> n in names;
      UnchangedWidth(front, a, b);
    }
  }
}
