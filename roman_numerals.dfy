/** The Roman-numeral encoder and decoder of `RomanNumerals.JavaRomans`: a
    greedy encoding of an integer against a table of thirteen value/symbol
    entries, and a greedy decoding that walks the same table matching
    prefixes. `Greedy` and `Parse` name the entries each of them produces;
    the methods `ToNumeral` and `ToInt` are proved to compute them. */
module RomanNumerals {

  /** The value of a table entry: at least 1. */
  type Positive = x: int | x >= 1 witness 1

  datatype Entry = Entry(value: Positive, symbol: string)

  /** `romanNumerals`: from the largest value to the smallest, subtractive
      pairs in between. */
  const Table: seq<Entry> := [
    Entry(1000, "M"), Entry(900, "CM"), Entry(500, "D"), Entry(400, "CD"),
    Entry(100, "C"), Entry(90, "XC"), Entry(50, "L"), Entry(40, "XL"),
    Entry(10, "X"), Entry(9, "IX"), Entry(5, "V"), Entry(4, "IV"),
    Entry(1, "I")
  ]

  /** The shape of the table the proofs rely on: values strictly decrease down
      to 1, and every symbol has one or two letters. */
  lemma TableShape()
    ensures |Table| == 13 && Table[|Table| - 1].value == 1
    ensures forall i :: 0 <= i < |Table| ==> Table[i].value >= 1 && 1 <= |Table[i].symbol| <= 2
    ensures forall i, j :: 0 <= i < j < |Table| ==> Table[i].value > Table[j].value
  {
  }

  /** The shape of one entry: its symbol has one or two letters. */
  lemma SymbolShape(i: nat)
    requires i < |Table|
    ensures 1 <= |Table[i].symbol| <= 2
  {
    TableShape();
  }

  /** The symbols of the entries, one after the other. */
  function Render(ts: seq<Entry>): string {
    if ts == [] then [] else ts[0].symbol + Render(ts[1..])
  }

  /** The sum of the values of the entries. */
  function Value(ts: seq<Entry>): int {
    if ts == [] then 0 else ts[0].value + Value(ts[1..])
  }

  /** The entries `toNumeral` appends once it has reached entry `i` of the
      table with `n` still to write: entry `i` as long as it fits, then the
      next entry. */
  function Greedy(n: int, i: nat): seq<Entry>
    requires i <= |Table|
    decreases |Table| - i, n
  {
    if i == |Table| then []
    else if n >= Table[i].value then
      TableShape();
      [Table[i]] + Greedy(n - Table[i].value, i)
    else Greedy(n, i + 1)
  }

  /** What `toNumeral(n)` returns. */
  function Numeral(n: int): string {
    Render(Greedy(n, 0))
  }

  /** One step of `toNumeral` at entry `i`: write the entry if its value fits,
      otherwise move on to the next entry. */
  lemma GreedyStep(n: int, i: nat)
    requires i <= |Table|
    ensures i == |Table| ==> Greedy(n, i) == []
    ensures i < |Table| && n >= Table[i].value ==> Greedy(n, i) == [Table[i]] + Greedy(n - Table[i].value, i)
    ensures i < |Table| && n < Table[i].value ==> Greedy(n, i) == Greedy(n, i + 1)
  {
  }

  /** The entries `toInt` matches in `s` once it has reached entry `i` of the
      table: entry `i` as long as the rest of the string starts with its
      symbol, then the next entry. Whatever no entry matches is not read. */
  function Parse(s: string, i: nat): seq<Entry>
    requires i <= |Table|
    decreases |Table| - i, |s|
  {
    if i == |Table| then []
    else if Table[i].symbol <= s then
      TableShape();
      [Table[i]] + Parse(s[|Table[i].symbol|..], i)
    else Parse(s, i + 1)
  }

  /** What `toInt(s)` returns. */
  function Decode(s: string): int {
    Value(Parse(s, 0))
  }

  // ---------------------------------------------------------------------------
  // toNumeral and toInt

  /** `toNumeral`: for each entry of the table in order, append its symbol and
      subtract its value while what remains is at least that value. */
  method ToNumeral(number: int) returns (s: string)
    ensures s == Numeral(number)
  {
    TableShape();
    var sb := "";
    var remaining := number;
    for i := 0 to |Table|
      invariant sb + Render(Greedy(remaining, i)) == Numeral(number)
      // what remains is never negative, and is below the entries already passed
      invariant number >= 0 ==> 0 <= remaining && (i > 0 ==> remaining < Table[i - 1].value)
    {
      while remaining >= Table[i].value
        invariant sb + Render(Greedy(remaining, i)) == Numeral(number)
        invariant number >= 0 ==> 0 <= remaining && (i > 0 ==> remaining < Table[i - 1].value)
        decreases remaining
      {
        assert sb + (Table[i].symbol + Render(Greedy(remaining - Table[i].value, i))) ==
               (sb + Table[i].symbol) + Render(Greedy(remaining - Table[i].value, i));
        remaining := remaining - Table[i].value;
        sb := sb + Table[i].symbol;
      }
    }
    // every entry down to I (value 1) is passed, so nothing remains
    assert number >= 0 ==> remaining == 0;
    s := sb;
  }

  /** Whether `s` has `prefix` at position `index` (`String.startsWith(prefix,
      index)`, which is false when the prefix would run past the end). */
  predicate StartsAt(s: string, prefix: string, index: nat) {
    index + |prefix| <= |s| && s[index..index + |prefix|] == prefix
  }

  /** Having `prefix` at `index` is having it as a prefix of the rest. */
  lemma StartsAtRest(s: string, prefix: string, index: nat)
    requires index <= |s|
    ensures StartsAt(s, prefix, index) <==> prefix <= s[index..]
  {
    if StartsAt(s, prefix, index) {
      assert s[index..][..|prefix|] == s[index..index + |prefix|];
    }
    if prefix <= s[index..] {
      assert s[index..index + |prefix|] == s[index..][..|prefix|];
    }
  }

  /** `toInt`: for each entry of the table in order, add its value and move
      past its symbol while the numeral has that symbol at the current index. */
  method ToInt(numeral: string) returns (result: int)
    ensures result == Decode(numeral)
  {
    hide Parse;
    result := 0;
    var index: nat := 0;
    assert numeral[0..] == numeral;
    for i := 0 to |Table|
      invariant index <= |numeral|
      invariant result + Value(Parse(numeral[index..], i)) == Decode(numeral)
    {
      var entry := Table[i];
      SymbolShape(i);
      StartsAtRest(numeral, entry.symbol, index);
      while StartsAt(numeral, entry.symbol, index)
        invariant index <= |numeral|
        invariant result + Value(Parse(numeral[index..], i)) == Decode(numeral)
        invariant StartsAt(numeral, entry.symbol, index) <==> entry.symbol <= numeral[index..]
        decreases |numeral| - index
      {
        ParseStep(numeral[index..], i);
        assert numeral[index..][|entry.symbol|..] == numeral[index + |entry.symbol|..];
        result := result + entry.value;
        index := index + |entry.symbol|;
        StartsAtRest(numeral, entry.symbol, index);
      }
      ParseStep(numeral[index..], i);
    }
    ParseStep(numeral[index..], |Table|);
  }

  // ---------------------------------------------------------------------------
  // What toNumeral writes

  /** Nothing is written once less than 1 remains. */
  lemma {:induction false} GreedyNone(n: int, i: nat)
    requires i <= |Table| && n < 1
    ensures Greedy(n, i) == []
    decreases |Table| - i
  {
    TableShape();
    if i < |Table| {
      GreedyNone(n, i + 1);
    }
  }

  /** With at least 1 to write, the first entry at or after `i` whose value
      fits is written first (the table ends with 1, so there is one), and the
      rest is written from that entry on. */
  lemma {:induction false} GreedyHead(n: int, i: nat) returns (k: nat)
    requires i < |Table| && n >= 1
    ensures i <= k < |Table| && Table[k].value <= n
    ensures forall j :: i <= j < k ==> Table[j].value > n
    ensures Greedy(n, i) == [Table[k]] + Greedy(n - Table[k].value, k)
    decreases |Table| - i
  {
    hide Greedy;
    TableShape();
    GreedyStep(n, i);
    if n >= Table[i].value {
      k := i;
    } else {
      k := GreedyHead(n, i + 1);
    }
  }

  /** `toNumeral(n)` is empty exactly when `n <= 0`. */
  lemma NumeralEmpty(n: int)
    ensures Numeral(n) == "" <==> n <= 0
  {
    TableShape();
    if n <= 0 {
      GreedyNone(n, 0);
    } else {
      var k := GreedyHead(n, 0);
    }
  }

  /** The values of what is written add up to what remained. */
  lemma {:induction false} GreedySum(n: int, i: nat)
    requires i < |Table| && n >= 0
    ensures Value(Greedy(n, i)) == n
    decreases |Table| - i, n
  {
    TableShape();
    if n >= Table[i].value {
      GreedySum(n - Table[i].value, i);
    } else if i + 1 < |Table| {
      GreedySum(n, i + 1);
    } else {
      assert n == 0 && Greedy(n, i + 1) == [];
    }
  }

  /** For `n >= 0` the values of the symbols of `toNumeral(n)` add up to `n`;
      for a negative `n` nothing is written. */
  lemma NumeralSum(n: int)
    ensures Value(Greedy(n, 0)) == if n < 0 then 0 else n
  {
    TableShape();
    if n < 0 {
      GreedyNone(n, 0);
    } else {
      GreedySum(n, 0);
    }
  }

  /** What is written from entry `i` on consists of entries at or after `i`. */
  lemma {:induction false} GreedyFrom(n: int, i: nat)
    requires i <= |Table|
    ensures forall e :: e in Greedy(n, i) ==> e in Table[i..]
    decreases |Table| - i, n
  {
    if i < |Table| {
      if n >= Table[i].value {
        GreedyFrom(n - Table[i].value, i);
      } else {
        GreedyFrom(n, i + 1);
        assert Table[i + 1..] == Table[i..][1..];
      }
    }
  }

  /** The entries at or after `i` are worth no more than entry `i`. */
  lemma TableFrom(i: nat, e: Entry)
    requires i < |Table| && e in Table[i..]
    ensures e.value <= Table[i].value
  {
    TableShape();
    var j :| 0 <= j < |Table[i..]| && Table[i..][j] == e;
    assert e == Table[i + j];
  }

  /** What is written from entry `i` on is in table order: values never
      increase. */
  lemma {:induction false} GreedyOrdered(n: int, i: nat)
    requires i <= |Table|
    ensures forall a, b :: 0 <= a < b < |Greedy(n, i)| ==> Greedy(n, i)[a].value >= Greedy(n, i)[b].value
    decreases |Table| - i, n
  {
    if i < |Table| {
      if n >= Table[i].value {
        var rest := Greedy(n - Table[i].value, i);
        GreedyOrdered(n - Table[i].value, i);
        GreedyFrom(n - Table[i].value, i);
        forall e | e in rest
          ensures e.value <= Table[i].value
        {
          TableFrom(i, e);
        }
        assert forall b :: 0 < b < |Greedy(n, i)| ==> Greedy(n, i)[b] == rest[b - 1];
      } else {
        GreedyOrdered(n, i + 1);
      }
    }
  }

  /** Every symbol `toNumeral` writes is one of the table, and the symbols come
      in table order, largest value first. */
  lemma NumeralOrdered(n: int)
    ensures forall e :: e in Greedy(n, 0) ==> e in Table
    ensures forall a, b :: 0 <= a < b < |Greedy(n, 0)| ==> Greedy(n, 0)[a].value >= Greedy(n, 0)[b].value
  {
    GreedyFrom(n, 0);
    GreedyOrdered(n, 0);
    assert Table[0..] == Table;
  }

  /** Each occurrence of an entry used up its value. */
  lemma {:induction false} GreedyConsumes(n: int, i: nat, e: Entry)
    requires i <= |Table| && n >= 0
    ensures multiset(Greedy(n, i))[e] * e.value <= n
    decreases |Table| - i, n
  {
    hide Greedy;
    GreedyStep(n, i);
    if i < |Table| {
      if n >= Table[i].value {
        var rest := Greedy(n - Table[i].value, i);
        GreedyConsumes(n - Table[i].value, i, e);
        var c := multiset(rest)[e];
        assert multiset(Greedy(n, i)) == multiset{Table[i]} + multiset(rest);
        if Table[i] == e {
          assert multiset(Greedy(n, i))[e] == c + 1;
          assert (c + 1) * e.value == c * e.value + e.value;
        } else {
          assert multiset(Greedy(n, i))[e] == c;
        }
      } else {
        GreedyConsumes(n, i + 1, e);
      }
    }
  }

  /** Once entry `t - 1` has been passed, less than its value remains, so entry
      `t` cannot be written often enough to reach it. */
  lemma {:induction false} GreedyRepeats(n: int, i: nat, t: nat)
    requires 1 <= t < |Table| && i <= t && n >= 0
    requires i > 0 ==> n < Table[i - 1].value
    ensures multiset(Greedy(n, i))[Table[t]] * Table[t].value < Table[t - 1].value
    decreases |Table| - i, n
  {
    TableShape();
    if i == t {
      GreedyConsumes(n, i, Table[t]);
    } else if n >= Table[i].value {
      GreedyRepeats(n - Table[i].value, i, t);
      assert Table[i] != Table[t];
    } else {
      GreedyRepeats(n, i + 1, t);
    }
  }

  /** The repeat limit the table allows entry `t`: 3 for C, X and I, 1 for every
      other entry but M. */
  lemma RepeatLimit(t: nat, c: int)
    requires 1 <= t < |Table| && c >= 0 && c * Table[t].value < Table[t - 1].value
    ensures c <= if Table[t].symbol in {"C", "X", "I"} then 3 else 1
  {
    if t in {4, 8, 12} {
      assert Table[t].symbol in {"C", "X", "I"};
    } else {
      assert Table[t].symbol !in {"C", "X", "I"};
      assert 2 * Table[t].value >= Table[t - 1].value;
    }
  }

  /** `toNumeral` writes C, X and I at most three times each, and every other
      symbol except M at most once. */
  lemma NumeralRepeats(n: int)
    ensures forall t :: 1 <= t < |Table| ==>
      multiset(Greedy(n, 0))[Table[t]] <= if Table[t].symbol in {"C", "X", "I"} then 3 else 1
  {
    if n < 0 {
      GreedyNone(n, 0);
    } else {
      forall t | 1 <= t < |Table|
        ensures multiset(Greedy(n, 0))[Table[t]] <= if Table[t].symbol in {"C", "X", "I"} then 3 else 1
      {
        GreedyRepeats(n, 0, t);
        RepeatLimit(t, multiset(Greedy(n, 0))[Table[t]]);
      }
    }
  }

  // ---------------------------------------------------------------------------
  // What toInt reads

  /** `toInt("")` is 0. */
  lemma {:induction false} ParseEmpty(i: nat)
    requires i <= |Table|
    ensures Parse("", i) == [] && Value(Parse("", i)) == 0
    decreases |Table| - i
  {
    TableShape();
    if i < |Table| {
      ParseEmpty(i + 1);
    }
  }

  /** The symbols `toInt` matches spell out a prefix of the numeral: the index
      never runs past the end. */
  lemma {:induction false} ParsePrefix(s: string, i: nat)
    requires i <= |Table|
    ensures Render(Parse(s, i)) <= s
    decreases |Table| - i, |s|
  {
    TableShape();
    if i < |Table| {
      var sym := Table[i].symbol;
      if sym <= s {
        ParsePrefix(s[|sym|..], i);
        assert s == sym + s[|sym|..];
      } else {
        ParsePrefix(s, i + 1);
      }
    }
  }

  /** What follows the matched prefix is ignored: decoding the matched prefix
      alone gives the same entries. */
  lemma {:induction false} ParseIgnoresRest(s: string, i: nat)
    requires i <= |Table|
    ensures Parse(Render(Parse(s, i)), i) == Parse(s, i)
    decreases |Table| - i, |s|
  {
    if i < |Table| {
      var sym := Table[i].symbol;
      var p := Render(Parse(s, i));
      if sym <= s {
        var rest := s[|sym|..];
        ParseIgnoresRest(rest, i);
        assert p == sym + Render(Parse(rest, i));
        assert p[|sym|..] == Render(Parse(rest, i));
      } else {
        ParsePrefix(s, i + 1);
        ParseIgnoresRest(s, i + 1);
        assert !(sym <= p);
      }
    }
  }

  // ---------------------------------------------------------------------------
  // The round trip

  /** The first letters of the symbols from entry `k` on. */
  function Heads(k: nat): set<char>
    requires k <= |Table|
    decreases |Table| - k
  {
    if k == |Table| then {}
    else
      TableShape();
      {Table[k].symbol[0]} + Heads(k + 1)
  }

  lemma {:induction false} HeadsFrom(k: nat, j: nat)
    requires k <= j < |Table|
    ensures 1 <= |Table[j].symbol| && Table[j].symbol[0] in Heads(k)
    decreases j - k
  {
    TableShape();
    if k < j {
      HeadsFrom(k + 1, j);
    }
  }

  /** The symbol of entry `i` cannot begin a numeral whose first symbol is that
      of a later entry `k`, followed by nothing or by the symbol of an entry at
      or after `k`. */
  predicate Unambiguous(i: nat, k: nat)
    requires i < k < |Table|
  {
    TableShape();
    var a, b := Table[i].symbol, Table[k].symbol;
    a[0] != b[0] || (|a| == 2 && (if |b| == 2 then a[1] != b[1] else a[1] !in Heads(k)))
  }

  lemma TableUnambiguous(i: nat, k: nat)
    requires i < k < |Table|
    ensures Unambiguous(i, k)
  {
    TableShape();
  }

  /** Where `toNumeral` has passed entry `i`, `toInt` cannot match it either. */
  lemma NoFalseMatch(n: int, i: nat)
    requires i < |Table|
    ensures !(Table[i].symbol <= Render(Greedy(n, i + 1)))
  {
    hide Greedy;
    SymbolShape(i);
    if n < 1 || i + 1 == |Table| {
      if n < 1 {
        GreedyNone(n, i + 1);
      } else {
        GreedyStep(n, i + 1);
      }
    } else {
      var k := GreedyHead(n, i + 1);
      var m := n - Table[k].value;
      var rest := Render(Greedy(m, k));
      assert Render(Greedy(n, i + 1)) == Table[k].symbol + rest;
      TableUnambiguous(i, k);
      if m < 1 {
        GreedyNone(m, k);
      } else {
        var j := GreedyHead(m, k);
        HeadsFrom(k, j);
        SymbolShape(k);
        assert rest == Table[j].symbol + Render(Greedy(m - Table[j].value, j));
        assert rest[0] in Heads(k);
      }
    }
  }

  /** Decoding what `toNumeral` writes from entry `i` on matches exactly the
      entries it wrote. */
  lemma {:induction false} ParseGreedy(n: int, i: nat)
    requires i <= |Table|
    ensures Parse(Render(Greedy(n, i)), i) == Greedy(n, i)
    decreases |Table| - i, n
  {
    if i < |Table| {
      var sym := Table[i].symbol;
      if n >= Table[i].value {
        var rest := Render(Greedy(n - Table[i].value, i));
        ParseGreedy(n - Table[i].value, i);
        assert Render(Greedy(n, i)) == sym + rest;
        assert (sym + rest)[|sym|..] == rest;
      } else {
        NoFalseMatch(n, i);
        ParseGreedy(n, i + 1);
      }
    }
  }

  /** `toInt(toNumeral(n)) == n` for every `n >= 0` (and 0 for a negative `n`,
      whose numeral is empty). */
  lemma RoundTrip(n: int)
    ensures Decode(Numeral(n)) == if n < 0 then 0 else n
  {
    ParseGreedy(n, 0);
    NumeralSum(n);
  }

  /** One step of `toInt` at entry `i`: take the entry if the rest starts with
      its symbol, otherwise move on to the next entry. */
  lemma ParseStep(s: string, i: nat)
    requires i <= |Table|
    ensures i == |Table| ==> Parse(s, i) == []
    ensures i < |Table| && Table[i].symbol <= s ==> Parse(s, i) == [Table[i]] + Parse(s[|Table[i].symbol|..], i)
    ensures i < |Table| && !(Table[i].symbol <= s) ==> Parse(s, i) == Parse(s, i + 1)
  {
  }

  /** Entries that do not match where the reading stands are passed over. */
  lemma {:induction false} ParseSkips(s: string, i: nat, j: nat)
    requires i <= j <= |Table|
    requires forall k :: i <= k < j ==> !(Table[k].symbol <= s)
    ensures Parse(s, i) == Parse(s, j)
    decreases j - i
  {
    if i < j {
      ParseStep(s, i);
      ParseSkips(s, i + 1, j);
    }
  }

  /** Four I's, read with the last entry only. */
  lemma ReadOnes()
    ensures Parse("IIII", 12) == [Table[12], Table[12], Table[12], Table[12]]
  {
    hide Parse;
    assert Table[12].symbol == "I";
    assert "IIII"[1..] == "III" && "III"[1..] == "II" && "II"[1..] == "I" && "I"[1..] == "";
    ParseStep("", 13);
    ParseStep("", 12);
    ParseStep("I", 12);
    ParseStep("II", 12);
    ParseStep("III", 12);
    ParseStep("IIII", 12);
  }

  /** Decoding is not validation: repeated I's are read one by one. */
  lemma DecodeRepeated()
    ensures Decode("IIII") == 4
  {
    hide Parse;
    forall k | 0 <= k < 12
      ensures !(Table[k].symbol <= "IIII")
    {
      assert Table[k].symbol[0] != 'I' || Table[k].symbol[1] != 'I';
    }
    ParseSkips("IIII", 0, 12);
    ReadOnes();
  }

  /** What no entry matches at the current position ends the reading: after V
      only IV and I are still looked for. */
  lemma DecodeStops()
    ensures Decode("VX") == 5
  {
    assert Table[11].symbol == "IV" && Table[12].symbol == "I";
    ParseStep("X", 12);
    ParseStep("X", 11);
    ParseStep("X", 10);
    assert Parse("X", 13) == [];
    assert "X"[..1] == "X" && "I"[0] != "X"[0] && "V"[0] != "X"[0];
    assert Parse("X", 12) == [];
    assert Parse("X", 11) == [];
    assert Parse("X", 10) == [];
    ParseStep("VX", 10);
    assert Table[10].symbol == "V" && "VX"[1..] == "X";
    assert Parse("VX", 10) == [Table[10]];
    ParseStep("VX", 9);
    ParseStep("VX", 8);
    ParseStep("VX", 7);
    ParseStep("VX", 6);
    ParseStep("VX", 5);
    ParseStep("VX", 4);
    ParseStep("VX", 3);
    ParseStep("VX", 2);
    ParseStep("VX", 1);
    ParseStep("VX", 0);
  }
}
