/**
 * The pure display helpers of the Pokédex screen: the capitalisation of
 * names, the colour of a type chip, the zero-padded id, the label and the
 * bar colour of a combat stat, and the label of an ability.
 */
module PokemonDisplay {
  import opened JsString

  /** `str.charAt(0).toUpperCase() + str.slice(1)`. */
  function CapitalizeFirst(s: string): (r: string)
    ensures |r| == |s|
    ensures s != [] ==> r[0] == UpperChar(s[0]) && r[1..] == s[1..]
  {
    if s == [] then [] else [UpperChar(s[0])] + s[1..]
  }

  /** Capitalising a capitalised string changes nothing. */
  lemma CapitalizeFirstIdempotent(s: string)
    ensures CapitalizeFirst(CapitalizeFirst(s)) == CapitalizeFirst(s)
  {
  }

  // ---------------------------------------------------------------- types

  /** The chip colour of each type name the Pokédex knows. */
  const TypeColors: map<string, string> := map[
    "normal" := "#A8A878",
    "fire" := "#F08030",
    "water" := "#6890F0",
    "electric" := "#F8D030",
    "grass" := "#78C850",
    "ice" := "#98D8D8",
    "fighting" := "#C03028",
    "poison" := "#A040A0",
    "ground" := "#E0C068",
    "flying" := "#A890F0",
    "psychic" := "#F85888",
    "bug" := "#A8B820",
    "rock" := "#B8A038",
    "ghost" := "#705898",
    "dragon" := "#7038F8",
    "dark" := "#705848",
    "steel" := "#B8B8D0",
    "fairy" := "#EE99AC"
  ]

  const DefaultTypeColor: string := "#68A090"

  /** `colors[type] || '#68A090'`: the table's colour when the lookup gives a
      non-empty string, the default otherwise. */
  function TypeColor(typeName: string): (color: string)
    ensures typeName in TypeColors ==> color == TypeColors[typeName]
    ensures typeName !in TypeColors ==> color == DefaultTypeColor
    ensures color in TypeColors.Values || color == DefaultTypeColor
  {
    if typeName in TypeColors && TypeColors[typeName] != "" then TypeColors[typeName]
    else DefaultTypeColor
  }

  /** The default colour is not in the table, so it marks exactly the
      unknown type names. */
  lemma DefaultMeansUnknownType(typeName: string)
    ensures TypeColor(typeName) == DefaultTypeColor <==> typeName !in TypeColors
  {
    assert DefaultTypeColor !in TypeColors.Values;
  }

  /** No two known types share a colour. */
  lemma TypeColorsDistinct(a: string, b: string)
    requires a in TypeColors && b in TypeColors && a != b
    ensures TypeColor(a) != TypeColor(b)
  {
  }

  // ------------------------------------------------------------------- id

  function DigitChar(d: nat): (c: char)
    requires d < 10
    ensures '0' <= c <= '9' && c as int - '0' as int == d
  {
    ('0' as int + d) as char
  }

  predicate IsDigit(c: char) { '0' <= c <= '9' }

  /** The decimal value of a string of digits. */
  function DecimalValue(s: string): nat
    requires forall i :: 0 <= i < |s| ==> IsDigit(s[i])
  {
    if s == [] then 0
    else
      assert IsDigit(s[|s| - 1]);
      DecimalValue(s[..|s| - 1]) * 10 + (s[|s| - 1] as int - '0' as int)
  }

  /** `n.toString()` for a natural number: its shortest decimal spelling. */
  function NatToString(n: nat): (r: string)
    ensures |r| >= 1 && forall i :: 0 <= i < |r| ==> IsDigit(r[i])
    ensures (|r| >= 2 <==> n >= 10) && (|r| >= 3 <==> n >= 100)
    ensures n >= 10 ==> r[0] != '0'
  {
    if n < 10 then [DigitChar(n)] else NatToString(n / 10) + [DigitChar(n % 10)]
  }

  /** Reading back the decimal spelling gives the number. */
  lemma {:induction false} NatToStringRoundTrip(n: nat)
    ensures DecimalValue(NatToString(n)) == n
  {
    if n >= 10 {
      var s := NatToString(n);
      assert s[..|s| - 1] == NatToString(n / 10);
      NatToStringRoundTrip(n / 10);
    }
  }

  /** `Number.prototype.toString` for an integer below 10^21 in magnitude,
      with a leading `-` when it is negative. */
  function IntToString(i: int): (r: string)
    ensures i >= 0 ==> r == NatToString(i)
    ensures i < 0 ==> r == "-" + NatToString(-i)
  {
    if i < 0 then "-" + NatToString(-i) else NatToString(i)
  }

  function Repeat(c: char, n: nat): (r: string)
    ensures |r| == n && forall i :: 0 <= i < n ==> r[i] == c
  {
    if n == 0 then [] else [c] + Repeat(c, n - 1)
  }

  /** `s.padStart(width, fill)` with a one-character fill: `s` unchanged when
      it is already `width` long, otherwise `fill` repeated in front of it up
      to `width`. */
  function PadStart(s: string, width: nat, fill: char): (r: string)
    ensures |r| == if |s| >= width then |s| else width
    ensures r[|r| - |s|..] == s
    ensures forall i :: 0 <= i < |r| - |s| ==> r[i] == fill
  {
    if |s| >= width then s else Repeat(fill, width - |s|) + s
  }

  /** `pokemon.id.toString().padStart(3, '0')`. */
  function PaddedId(id: int): (r: string)
    ensures |r| >= 3
    ensures id >= 100 ==> r == IntToString(id)
    ensures 0 <= id < 100 ==> |r| == 3
  {
    PadStart(IntToString(id), 3, '0')
  }

  /** Leading zeros do not change a decimal value. */
  lemma {:induction false} LeadingZeros(k: nat, s: string)
    requires forall i :: 0 <= i < |s| ==> IsDigit(s[i])
    ensures var z := Repeat('0', k) + s;
      (forall i :: 0 <= i < |z| ==> IsDigit(z[i])) && DecimalValue(z) == DecimalValue(s)
    decreases |s|, k
  {
    var z := Repeat('0', k) + s;
    if s == [] {
      if k > 0 {
        assert z[..|z| - 1] == Repeat('0', k - 1) + [];
        LeadingZeros(k - 1, []);
      }
    } else {
      assert z[..|z| - 1] == Repeat('0', k) + s[..|s| - 1];
      LeadingZeros(k, s[..|s| - 1]);
    }
  }

  /** The padded id of a non-negative id is a string of digits that reads
      back as the id, so distinct ids are displayed differently. */
  lemma PaddedIdRoundTrip(id: nat)
    ensures var r := PaddedId(id);
      (forall i :: 0 <= i < |r| ==> IsDigit(r[i])) && DecimalValue(r) == id
  {
    var s := NatToString(id);
    NatToStringRoundTrip(id);
    if |s| < 3 {
      LeadingZeros(3 - |s|, s);
    }
  }

  // ---------------------------------------------------------------- stats

  /** The display label of each stat the Pokédex knows. */
  const StatLabels: map<string, string> := map[
    "hp" := "HP",
    "attack" := "Ataque",
    "defense" := "Defensa",
    "special-attack" := "Ataque Esp.",
    "special-defense" := "Defensa Esp.",
    "speed" := "Velocidad"
  ]

  /** `statNames[name] || capitalizeFirst(name)`. */
  function StatLabel(name: string): (text: string)
    ensures name in StatLabels ==> text == StatLabels[name]
    ensures name !in StatLabels ==> text == CapitalizeFirst(name)
    ensures text == [] <==> name == []
    ensures text != [] ==> !IsAsciiLower(text[0])
  {
    if name in StatLabels && StatLabels[name] != "" then StatLabels[name]
    else CapitalizeFirst(name)
  }

  /** `(stat.base_stat / 255) * 100`, in exact arithmetic. */
  function Percentage(baseStat: int): (p: real)
    ensures baseStat >= 0 <==> p >= 0.0
    ensures baseStat <= 255 <==> p <= 100.0
  {
    (baseStat as real / 255.0) * 100.0
  }

  const HighStatColor: string := "#4CAF50"
  const MidStatColor: string := "#FF9800"
  const LowStatColor: string := "#F44336"

  /** `percentage > 75 ? green : percentage > 50 ? orange : red`. */
  function StatBarColor(baseStat: int): (color: string)
    ensures color in {HighStatColor, MidStatColor, LowStatColor}
  {
    if Percentage(baseStat) > 75.0 then HighStatColor
    else if Percentage(baseStat) > 50.0 then MidStatColor
    else LowStatColor
  }

  /** For whole-number stats the bands are 192 and up, 128 to 191, and 127
      and below. */
  lemma StatBands(baseStat: int)
    ensures StatBarColor(baseStat) == HighStatColor <==> baseStat >= 192
    ensures StatBarColor(baseStat) == MidStatColor <==> 128 <= baseStat <= 191
    ensures StatBarColor(baseStat) == LowStatColor <==> baseStat <= 127
  {
    assert Percentage(baseStat) > 75.0 <==> baseStat as real > 191.25;
    assert Percentage(baseStat) > 50.0 <==> baseStat as real > 127.5;
  }

  /** The band rank of a bar colour: red, orange, green. */
  function BandRank(color: string): nat
  {
    if color == HighStatColor then 2 else if color == MidStatColor then 1 else 0
  }

  /** A larger stat never gets a lower band. */
  lemma StatBandsMonotone(low: int, high: int)
    requires low <= high
    ensures BandRank(StatBarColor(low)) <= BandRank(StatBarColor(high))
  {
    StatBands(low);
    StatBands(high);
  }

  /** The bar width is not clamped: a stat above 255 gives more than 100%. */
  lemma WidthNotClamped(baseStat: int)
    ensures Percentage(baseStat) > 100.0 <==> baseStat > 255
  {
  }

  // ------------------------------------------------------------ abilities

  /** `capitalizeFirst(name.replace('-', ' '))`: only the first hyphen
      becomes a space. */
  function AbilityLabel(name: string): (text: string)
    ensures |text| == |name|
    ensures '-' !in name ==> text == CapitalizeFirst(name)
    ensures var k := IndexOf(name, '-');
      k >= 0 ==> text == CapitalizeFirst(name[..k] + " " + name[k + 1..])
    ensures var k := IndexOf(name, '-');
      k >= 0 ==> text[k] == ' ' && text[k + 1..] == name[k + 1..]
  {
    CapitalizeFirst(ReplaceFirst(name, '-', ' '))
  }
}
