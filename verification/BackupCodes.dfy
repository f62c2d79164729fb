/**
 Backup codes: how they are spelled, generated and looked up.
 */
module BackupCodes {
  const ALPHABET := "0123456789ABCDEFGHJKMNPQRSTVWXYZ"
  const CODE_COUNT := 10
  const CODE_LENGTH := 10

  // ---------------------------------------------------------------- normalisation

  predicate Lower(c: char) { 'a' <= c <= 'z' }
  predicate Alnum(c: char) { '0' <= c <= '9' || 'A' <= c <= 'Z' }

  function UpperChar(c: char): char { if Lower(c) then c - 'a' + 'A' else c }

  function Upper(s: string): string
  {
    if s == [] then [] else [UpperChar(s[0])] + Upper(s[1..])
  }

  function KeepAlnum(s: string): string
  {
    if s == [] then [] else if Alnum(s[0]) then [s[0]] + KeepAlnum(s[1..]) else KeepAlnum(s[1..])
  }

  function ReplaceO(s: string): string
  {
    if s == [] then [] else [if s[0] == 'O' then '0' else s[0]] + ReplaceO(s[1..])
  }

  function ReplaceIL(s: string): string
  {
    if s == [] then [] else [if s[0] == 'I' || s[0] == 'L' then '1' else s[0]] + ReplaceIL(s[1..])
  }

  /** The four passes of the source, one after the other. */
  function Normalize(code: string): string
  {
    ReplaceIL(ReplaceO(KeepAlnum(Upper(code))))
  }

  predicate Symbol(c: char) { Alnum(c) && c != 'I' && c != 'L' && c != 'O' && c != 'U' }

  predicate Raw(s: string) { forall i :: 0 <= i < |s| ==> Symbol(s[i]) }

  /** The ways to write one symbol: as it is, in lower case, or as one of its look-alikes. */
  predicate Writes(c: char, symbol: char)
  {
    || UpperChar(c) == symbol
    || (symbol == '0' && UpperChar(c) == 'O')
    || (symbol == '1' && (UpperChar(c) == 'I' || UpperChar(c) == 'L'))
  }

  /** `text` is a spelling of `raw`: its symbols in order, each written in any of its ways, with
      separators wherever one likes. */
  predicate Spells(text: string, raw: string)
  {
    if text == [] then raw == []
    else if !Alnum(UpperChar(text[0])) then Spells(text[1..], raw)
    else raw != [] && Writes(text[0], raw[0]) && Spells(text[1..], raw[1..])
  }

  /** What one character contributes. */
  function NormalChar(c: char): string
  {
    var u := UpperChar(c);
    if !Alnum(u) then [] else if u == 'O' then ['0'] else if u == 'I' || u == 'L' then ['1'] else [u]
  }

  lemma {:induction false} NormalizeCons(text: string)
    requires text != []
    ensures Normalize(text) == NormalChar(text[0]) + Normalize(text[1..])
  {
    var rest := Upper(text[1..]);
    var u := UpperChar(text[0]);
    assert Upper(text) == [u] + rest && ([u] + rest)[1..] == rest;
    if Alnum(u) {
      var k := KeepAlnum(rest);
      assert ([u] + k)[1..] == k;
      var o := [if u == 'O' then '0' else u];
      assert (o + ReplaceO(k))[1..] == ReplaceO(k);
    }
  }

  /** Normalising a text gives the raw symbols of a code exactly when the text is a spelling of it. */
  lemma {:induction false} NormalizeExactlySpellings(text: string, raw: string)
    requires Raw(raw)
    ensures Normalize(text) == raw <==> Spells(text, raw)
    decreases |text|
  {
    if text != [] {
      NormalizeCons(text);
      var rest := Normalize(text[1..]);
      var n := NormalChar(text[0]);
      if n == [] {
        assert [] + rest == rest;
        NormalizeExactlySpellings(text[1..], raw);
      } else if raw != [] {
        NormalizeExactlySpellings(text[1..], raw[1..]);
        assert n + rest == raw <==> n[0] == raw[0] && rest == raw[1..] by {
          assert raw == [raw[0]] + raw[1..];
          assert (n + rest)[1..] == rest;
        }
        assert n[0] == raw[0] <==> Writes(text[0], raw[0]) by { assert Symbol(raw[0]); }
      }
    }
  }

  lemma {:induction false} RawSpellsItself(raw: string)
    requires Raw(raw)
    ensures Spells(raw, raw)
  {
    if raw != [] {
      assert Symbol(raw[0]);
      RawSpellsItself(raw[1..]);
    }
  }

  lemma {:induction false} SpellsConcat(t: string, r: string, t': string, r': string)
    requires Spells(t, r) && Spells(t', r')
    ensures Spells(t + t', r + r')
    decreases |t|
  {
    if t == [] {
      assert t + t' == t' && r + r' == r';
    } else {
      assert (t + t')[1..] == t[1..] + t';
      if !Alnum(UpperChar(t[0])) {
        SpellsConcat(t[1..], r, t', r');
      } else {
        assert (r + r')[1..] == r[1..] + r';
        SpellsConcat(t[1..], r[1..], t', r');
      }
    }
  }

  // ---------------------------------------------------------------- generation

  /** A raw code as it is shown to the user. */
  function Shown(raw: string): string
    requires |raw| == CODE_LENGTH
  {
    raw[..5] + "-" + raw[5..]
  }

  lemma {:induction false} ShownNormalizes(raw: string)
    requires |raw| == CODE_LENGTH && Raw(raw)
    ensures Normalize(Shown(raw)) == raw
  {
    RawSpellsItself(raw[..5]);
    RawSpellsItself(raw[5..]);
    assert Spells("-", "") by { assert "-"[1..] == ""; }
    SpellsConcat(raw[..5], raw[..5], "-", "");
    SpellsConcat(raw[..5] + "-", raw[..5] + "", raw[5..], raw[5..]);
    assert raw[..5] + "" + raw[5..] == raw;
    NormalizeExactlySpellings(Shown(raw), raw);
  }

  function SymbolOf(b: nat): char { ALPHABET[b % 32] }

  /** Turns the given random bytes into codes, ten symbols each. Every shown code, and therefore
      every spelling of it, normalises to the symbols drawn. */
  method GenerateBackupCodes(bytes: seq<seq<nat>>) returns (codes: seq<string>)
    requires |bytes| == CODE_COUNT && forall i :: 0 <= i < CODE_COUNT ==> |bytes[i]| == CODE_LENGTH
    ensures |codes| == 10
    ensures forall i :: 0 <= i < 10 ==>
              var raw := Normalize(codes[i]);
              && |raw| == 10 && Raw(raw) && codes[i] == raw[..5] + "-" + raw[5..]
              && forall j :: 0 <= j < 10 ==> raw[j] == SymbolOf(bytes[i][j])
  {
    codes := [];
    for i := 0 to CODE_COUNT
      invariant |codes| == i
      invariant forall k :: 0 <= k < i ==>
                  var raw := Normalize(codes[k]);
                  && |raw| == CODE_LENGTH && Raw(raw) && codes[k] == Shown(raw)
                  && forall j :: 0 <= j < CODE_LENGTH ==> raw[j] == SymbolOf(bytes[k][j])
    {
      var raw := "";
      for j := 0 to CODE_LENGTH
        invariant |raw| == j && forall l :: 0 <= l < j ==> raw[l] == SymbolOf(bytes[i][l])
      {
        raw := raw + [ALPHABET[bytes[i][j] % |ALPHABET|]];
      }
      assert Raw(raw) by { AlphabetIsSymbols(); }
      ShownNormalizes(raw);
      codes := codes + [Shown(raw)];
    }
  }

  lemma AlphabetIsSymbols()
    ensures |ALPHABET| == 32 && forall i :: 0 <= i < 32 ==> Symbol(ALPHABET[i])
  {
  }

  // ---------------------------------------------------------------- looking a code up

  /** A stored code; hashing is idealised, so a slot knows the symbols it stands for. Legacy slots
      are never accepted. */
  datatype Slot = Slot(symbols: string, legacy: bool, used: bool)

  predicate Fits(slot: Slot, normalized: string) { !slot.used && !slot.legacy && slot.symbols == normalized }

  /** Position of the first usable slot for a code, or the length. */
  function FirstFit(slots: seq<Slot>, normalized: string): (i: nat)
    ensures i <= |slots|
    ensures i < |slots| ==> Fits(slots[i], normalized)
    ensures forall k :: 0 <= k < i ==> !Fits(slots[k], normalized)
  {
    if slots == [] || Fits(slots[0], normalized) then 0 else 1 + FirstFit(slots[1..], normalized)
  }

  /** What a lookup answers: a code without any symbol never matches. */
  function Lookup(slots: seq<Slot>, code: string): nat
  {
    if Normalize(code) == [] then |slots| else FirstFit(slots, Normalize(code))
  }

  method FindMatchingIndex(slots: seq<Slot>, code: string) returns (index: int)
    ensures index == if Lookup(slots, code) < |slots| then Lookup(slots, code) else -1
    ensures index >= 0 ==>
              && index < |slots| && Normalize(code) != []
              && !slots[index].used && !slots[index].legacy && slots[index].symbols == Normalize(code)
    ensures index < 0 && Normalize(code) != [] ==>
              forall i :: 0 <= i < |slots| ==>
                slots[i].used || slots[i].legacy || slots[i].symbols != Normalize(code)
  {
    var normalized := Normalize(code);
    if normalized == [] { return -1; }
    for i := 0 to |slots|
      invariant FirstFit(slots, normalized) == i + FirstFit(slots[i..], normalized)
    {
      assert slots[i..][1..] == slots[i + 1..];
      if !slots[i].used && !slots[i].legacy && slots[i].symbols == normalized { return i; }
    }
    return -1;
  }

  // ---------------------------------------------------------------- characters and bytes

  /** What becomes of one character: digits and capitals stay, but for the three look-alikes; small
      letters count as capitals; everything else is dropped. */
  lemma {:induction false} CharacterByCharacter(c: char)
    ensures c == 'O' || c == 'o' ==> Normalize([c]) == "0"
    ensures c == 'I' || c == 'i' || c == 'L' || c == 'l' ==> Normalize([c]) == "1"
    ensures '0' <= c <= '9' ==> Normalize([c]) == [c]
    ensures 'A' <= c <= 'Z' && c != 'O' && c != 'I' && c != 'L' ==> Normalize([c]) == [c]
    ensures 'a' <= c <= 'z' && c != 'o' && c != 'i' && c != 'l' ==>
              Normalize([c]) == [(c as int - 32) as char]
    ensures !('0' <= c <= '9') && !('A' <= c <= 'Z') && !('a' <= c <= 'z') ==> Normalize([c]) == []
  {
    NormalizeCons([c]);
    assert [c][1..] == [] && Normalize([]) == [];
  }

  lemma {:induction false} UpperConcat(a: string, b: string)
    ensures Upper(a + b) == Upper(a) + Upper(b)
  {
    if a == [] {
      assert a + b == b;
    } else {
      UpperConcat(a[1..], b);
      assert (a + b)[1..] == a[1..] + b;
    }
  }

  lemma {:induction false} KeepConcat(a: string, b: string)
    ensures KeepAlnum(a + b) == KeepAlnum(a) + KeepAlnum(b)
  {
    if a == [] {
      assert a + b == b;
    } else {
      KeepConcat(a[1..], b);
      assert (a + b)[1..] == a[1..] + b;
    }
  }

  lemma {:induction false} ReplaceOConcat(a: string, b: string)
    ensures ReplaceO(a + b) == ReplaceO(a) + ReplaceO(b)
  {
    if a == [] {
      assert a + b == b;
    } else {
      ReplaceOConcat(a[1..], b);
      assert (a + b)[1..] == a[1..] + b;
    }
  }

  lemma {:induction false} ReplaceILConcat(a: string, b: string)
    ensures ReplaceIL(a + b) == ReplaceIL(a) + ReplaceIL(b)
  {
    if a == [] {
      assert a + b == b;
    } else {
      ReplaceILConcat(a[1..], b);
      assert (a + b)[1..] == a[1..] + b;
    }
  }

  /** Whatever stands before or after it, a text normalises the same: so case, separators and
      look-alikes do not matter anywhere. */
  lemma {:induction false} NormalizeConcat(a: string, b: string)
    ensures Normalize(a + b) == Normalize(a) + Normalize(b)
  {
    UpperConcat(a, b);
    KeepConcat(Upper(a), Upper(b));
    var x, y := KeepAlnum(Upper(a)), KeepAlnum(Upper(b));
    ReplaceOConcat(x, y);
    ReplaceILConcat(ReplaceO(x), ReplaceO(y));
  }

  /** The byte values that draw a symbol. */
  function Draws(c: char): set<nat> { set b: nat | b < 256 && SymbolOf(b) == c }

  /** Where a symbol stands in the alphabet. */
  function Place(c: char): (k: nat)
    requires Symbol(c)
    ensures k < 32
  {
    if c <= '9' then (c - '0') as nat
    else if c < 'I' then (c - 'A') as nat + 10
    else if c < 'L' then (c - 'J') as nat + 18
    else if c < 'O' then (c - 'M') as nat + 20
    else if c < 'U' then (c - 'P') as nat + 22
    else (c - 'V') as nat + 27
  }

  lemma PlaceHolds(c: char)
    requires Symbol(c)
    ensures ALPHABET[Place(c)] == c
  {
  }

  lemma PlaceFound(k: nat)
    requires k < 32
    ensures Symbol(ALPHABET[k]) && Place(ALPHABET[k]) == k
  {
  }

  lemma DrawnExactly(c: char, b: nat)
    ensures SymbolOf(b) == c <==> Symbol(c) && b % 32 == Place(c)
  {
    PlaceFound(b % 32);
    if Symbol(c) { PlaceHolds(c); }
  }

  lemma EveryThirtySecond(k: nat, b: nat)
    requires k < 32 && b < 256
    ensures b % 32 == k <==> b in Eight(k)
  {
    assert b == b / 32 * 32 + b % 32;
  }

  function Eight(k: nat): set<nat> { {k, k + 32, k + 64, k + 96, k + 128, k + 160, k + 192, k + 224} }

  lemma EightAreEight(k: nat)
    ensures |Eight(k)| == 8
  {
  }

  lemma DrawsExactly(c: char)
    ensures Draws(c) == if Symbol(c) then Eight(Place(c)) else {}
  {
    forall b: nat | b < 256 ensures SymbolOf(b) == c <==> Symbol(c) && b in Eight(Place(c))
    {
      DrawnExactly(c, b);
      if Symbol(c) { EveryThirtySecond(Place(c), b); }
    }
  }

  /** No modulo bias: every symbol is drawn by exactly eight of the 256 byte values, and nothing else
      is drawn at all. */
  lemma {:induction false} NoModuloBias(c: char)
    ensures |Draws(c)| == if Symbol(c) then 8 else 0
  {
    DrawsExactly(c);
    if Symbol(c) { EightAreEight(Place(c)); }
  }
}
