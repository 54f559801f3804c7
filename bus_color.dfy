/**
 * Per-bus map colours (helpers/busColor.ts): buses are walked in list order
 * and bus number `index` is given palette entry `index % 10`, written into a
 * plain object keyed by bus id.
 */
module BusColor {
  import Decimal

  /** A bus id is a string or a number; numbers are modelled as whole numbers. */
  datatype BusId = Text(s: string) | Number(n: int)

  datatype Bus = Bus(id: BusId, busName: string)

  /**
   * The property key an id becomes: a JavaScript object converts every key to
   * a string, so `7` and `"7"` name the same entry.
   */
  function PropertyKey(id: BusId): (k: string)
    ensures id.Text? ==> k == id.s
    ensures id.Number? ==> |k| >= 1 && (k[0] == '-' <==> id.n < 0)
  {
    match id
    case Text(s) => s
    case Number(n) => Decimal.IntToString(n)
  }

  /** A numeric id's key reads back as the id: its digits, after any minus sign. */
  lemma PropertyKeyReadsBack(n: int)
    ensures n >= 0 ==> Decimal.AllDigits(PropertyKey(Number(n))) &&
                       Decimal.ParseNat(PropertyKey(Number(n))) == n
    ensures n < 0 ==> Decimal.AllDigits(PropertyKey(Number(n))[1..]) &&
                      Decimal.ParseNat(PropertyKey(Number(n))[1..]) == -n
  {
    var k := PropertyKey(Number(n));
    if n < 0 {
      var digits := Decimal.NatToString(-n);
      assert k == "-" + digits;
      assert k[1..] == digits;
      Decimal.ParseNatToString(-n);
    } else {
      assert k == Decimal.NatToString(n);
      Decimal.ParseNatToString(n);
    }
  }

  function KeyOf(b: Bus): (k: string) {
    PropertyKey(b.id)
  }

  /** `baseColors`. */
  const BaseColors: seq<string> := [
    "#22c55e", "#3b82f6", "#f59e0b", "#ef4444", "#8b5cf6",
    "#ec4899", "#10b981", "#f97316", "#6366f1", "#eab308"
  ]

  /** The colour the loop writes for the bus at `index`. */
  function ColorAt(index: nat): (c: string)
    ensures c in BaseColors
  {
    BaseColors[index % |BaseColors|]
  }

  /** The keys of a list of buses. */
  function Keys(buses: seq<Bus>): (keys: set<string>) {
    set i | 0 <= i < |buses| :: KeyOf(buses[i])
  }

  predicate DistinctKeys(buses: seq<Bus>) {
    forall i, j :: 0 <= i < j < |buses| ==> KeyOf(buses[i]) != KeyOf(buses[j])
  }

  /** The record after visiting `buses` in order, later writes replacing earlier ones. */
  function ColorsOf(buses: seq<Bus>): (colors: map<string, string>)
    decreases |buses|
  {
    if buses == [] then map[]
    else
      var last := |buses| - 1;
      ColorsOf(buses[..last])[KeyOf(buses[last]) := ColorAt(last)]
  }

  /** `generateBusColors`. */
  method GenerateBusColors(buses: seq<Bus>) returns (colors: map<string, string>)
    ensures colors == ColorsOf(buses)
    ensures colors.Keys == Keys(buses)
    ensures forall k :: k in colors ==> colors[k] in BaseColors
  {
    colors := map[];
    var index := 0;
    while index < |buses|
      invariant 0 <= index <= |buses|
      invariant colors == ColorsOf(buses[..index])
    {
      assert buses[..index + 1][..index] == buses[..index];
      colors := colors[KeyOf(buses[index]) := ColorAt(index)];
      index := index + 1;
    }
    assert buses[..index] == buses;
    ColorsOfKeys(buses);
    ColorsOfInPalette(buses);
  }

  /** Appending a bus adds its key to the key set. */
  lemma KeysSnoc(buses: seq<Bus>)
    requires buses != []
    ensures Keys(buses) == Keys(buses[..|buses| - 1]) + {KeyOf(buses[|buses| - 1])}
  {
    var last := |buses| - 1;
    var prefix := buses[..last];
    forall k | k in Keys(buses) ensures k in Keys(prefix) + {KeyOf(buses[last])} {
      var i :| 0 <= i < |buses| && KeyOf(buses[i]) == k;
      if i < last {
        assert prefix[i] == buses[i];
      }
    }
    forall k | k in Keys(prefix) ensures k in Keys(buses) {
      var i :| 0 <= i < last && KeyOf(prefix[i]) == k;
      assert buses[i] == prefix[i];
    }
  }

  /** The record has exactly one entry per distinct key in the list. */
  lemma {:induction false} ColorsOfKeys(buses: seq<Bus>)
    ensures ColorsOf(buses).Keys == Keys(buses)
    decreases |buses|
  {
    if buses != [] {
      var last := |buses| - 1;
      var prefix := buses[..last];
      ColorsOfKeys(prefix);
      KeysSnoc(buses);
      assert ColorsOf(buses) == ColorsOf(prefix)[KeyOf(buses[last]) := ColorAt(last)];
    }
  }

  /** Every colour written is one of the ten palette entries. */
  lemma {:induction false} ColorsOfInPalette(buses: seq<Bus>)
    ensures forall k :: k in ColorsOf(buses) ==> ColorsOf(buses)[k] in BaseColors
    decreases |buses|
  {
    if buses != [] {
      ColorsOfInPalette(buses[..|buses| - 1]);
    }
  }

  /** A key's colour comes from its last occurrence in the list. */
  lemma {:induction false} LastOccurrenceWins(buses: seq<Bus>, i: nat)
    requires i < |buses|
    requires forall j :: i < j < |buses| ==> KeyOf(buses[j]) != KeyOf(buses[i])
    ensures KeyOf(buses[i]) in ColorsOf(buses)
    ensures ColorsOf(buses)[KeyOf(buses[i])] == ColorAt(i)
    decreases |buses|
  {
    var last := |buses| - 1;
    var prefix := buses[..last];
    var key := KeyOf(buses[i]);
    assert ColorsOf(buses) == ColorsOf(prefix)[KeyOf(buses[last]) := ColorAt(last)];
    if i < last {
      assert KeyOf(buses[last]) != key;
      assert prefix[i] == buses[i];
      forall j | i < j < |prefix| ensures KeyOf(prefix[j]) != KeyOf(prefix[i]) {
        assert prefix[j] == buses[j];
      }
      LastOccurrenceWins(prefix, i);
    }
  }

  /** With distinct ids, the bus at index `i` gets palette entry `i % 10`. */
  lemma ColorOfDistinct(buses: seq<Bus>, i: nat)
    requires DistinctKeys(buses) && i < |buses|
    ensures KeyOf(buses[i]) in ColorsOf(buses)
    ensures ColorsOf(buses)[KeyOf(buses[i])] == BaseColors[i % 10]
  {
    LastOccurrenceWins(buses, i);
  }

  /** With distinct ids, buses ten places apart share a colour. */
  lemma ColorRepeatsEveryTen(buses: seq<Bus>, i: nat)
    requires DistinctKeys(buses) && i + 10 < |buses|
    ensures KeyOf(buses[i]) in ColorsOf(buses) && KeyOf(buses[i + 10]) in ColorsOf(buses)
    ensures ColorsOf(buses)[KeyOf(buses[i])] == ColorsOf(buses)[KeyOf(buses[i + 10])]
  {
    ColorOfDistinct(buses, i);
    ColorOfDistinct(buses, i + 10);
    assert (i + 10) % 10 == i % 10;
  }

  /** No colour appears twice in the palette. */
  lemma PaletteDistinct(p: nat, q: nat)
    requires p < q < |BaseColors|
    ensures BaseColors[p] != BaseColors[q]
  {
  }

  /** Indices less than ten apart fall on different palette entries. */
  lemma ResiduesDiffer(i: nat, j: nat)
    requires i < j < i + 10
    ensures i % 10 != j % 10
  {
    var qi, qj := i / 10, j / 10;
    assert i == 10 * qi + i % 10;
    assert j == 10 * qj + j % 10;
  }

  /** With distinct ids, any ten consecutive buses get ten different colours. */
  lemma WindowOfTenDistinct(buses: seq<Bus>, i: nat, j: nat)
    requires DistinctKeys(buses) && i < j < |buses| && j - i < 10
    ensures KeyOf(buses[i]) in ColorsOf(buses) && KeyOf(buses[j]) in ColorsOf(buses)
    ensures ColorsOf(buses)[KeyOf(buses[i])] != ColorsOf(buses)[KeyOf(buses[j])]
  {
    ColorOfDistinct(buses, i);
    ColorOfDistinct(buses, j);
    ResiduesDiffer(i, j);
    if i % 10 < j % 10 {
      PaletteDistinct(i % 10, j % 10);
    } else {
      PaletteDistinct(j % 10, i % 10);
    }
  }

  /** An empty list gives an empty record. */
  lemma NoBusesNoColors()
    ensures ColorsOf([]) == map[]
  {
  }

  /** Bus id 7 and bus id "7" share one entry, coloured from the later bus. */
  lemma NumericAndTextIdsCollide(first: string, second: string)
    ensures ColorsOf([Bus(Number(7), first), Bus(Text("7"), second)]) == map["7" := BaseColors[1]]
  {
    var buses := [Bus(Number(7), first), Bus(Text("7"), second)];
    assert buses[..1] == [Bus(Number(7), first)];
    assert buses[..1][..0] == [];
    assert Decimal.DigitChar(7) == '7';
    assert KeyOf(buses[0]) == "7" && KeyOf(buses[1]) == "7";
    assert ColorsOf(buses[..1]) == map["7" := BaseColors[0]];
    assert ColorAt(1) == BaseColors[1];
  }
}
