/** Helpers shared by the tray host: object-path check, tooltip truncation,
    variant unwrapping, mnemonic stripping and pixmap choice (utils.js). */
module Utils {

  datatype Option<+T> = None | Some(value: T)

  /** A value as it arrives from the session bus, after GJS has turned the
      outer message into JavaScript values. `Variant` is a GLib.Variant still
      wrapped; deep-unpacking it yields `inner`. `Null` stands for both
      `null` and `undefined`. `Node` is a dbusmenu layout triple
      `(id, properties, children)`. */
  datatype Value =
    | Null
    | Bool(b: bool)
    | Int(n: int)
    | Str(s: string)
    | Node(id: int, props: map<string, Value>, children: seq<Value>)
    | Variant(inner: Value)

  // ---------------------------------------------------------------------
  // Object paths and tooltip text
  // ---------------------------------------------------------------------

  /** A string of at least two characters that starts with a slash; the
      root path "/" alone is not accepted. */
  predicate IsObjectPath(p: Value)
  {
    p.Str? && |p.s| > 1 && p.s[..1] == "/"
  }

  lemma IsObjectPathExactly(p: Value)
    ensures IsObjectPath(p) <==> p.Str? && |p.s| >= 2 && p.s[0] == '/'
    ensures !IsObjectPath(Str("/")) && !IsObjectPath(Str("")) && IsObjectPath(Str("/a"))
  {
    if p.Str? && |p.s| > 1 {
      assert p.s[..1] == [p.s[0]];
    }
    assert Str("/a").s[..1] == "/";
  }

  const TooltipLimit: nat := 80

  /** Tooltip text: empty for an empty string, the string itself when it
      fits in 80 characters, otherwise its first 77 characters and "...". */
  function SafeText(s: string): (r: string)
    ensures |r| <= TooltipLimit
    ensures |s| <= TooltipLimit ==> r == s
    ensures |s| > TooltipLimit ==> |r| == TooltipLimit && r[..77] == s[..77] && r[77..] == "..."
  {
    if s == [] then ""
    else if |s| > TooltipLimit then s[..77] + "..."
    else s
  }

  /** JavaScript's `x | 0`: the 32-bit two's-complement truncation. */
  function ToInt32(x: int): (r: int)
    ensures -0x8000_0000 <= r < 0x8000_0000
    ensures (x - r) % 0x1_0000_0000 == 0
    ensures -0x8000_0000 <= x < 0x8000_0000 ==> r == x
  {
    var m := x % 0x1_0000_0000;
    if m >= 0x8000_0000 then m - 0x1_0000_0000 else m
  }

  // ---------------------------------------------------------------------
  // Variant unwrapping
  // ---------------------------------------------------------------------

  /** `unpack`: removes one variant layer, leaves any other value alone. */
  function Unpack(v: Value): (r: Value)
    ensures v.Variant? ==> r == v.inner && Peeled(r) == Peeled(v)
    ensures !v.Variant? ==> r == v
  {
    if v.Variant? then v.inner else v
  }

  /** The value left once every variant layer is removed. */
  function Peeled(v: Value): (r: Value)
    ensures !r.Variant?
  {
    if v.Variant? then Peeled(v.inner) else v
  }

  lemma PeeledIdempotent(v: Value)
    ensures Peeled(Peeled(v)) == Peeled(v)
    ensures !v.Variant? ==> Peeled(v) == v
  {
  }

  /** `vunpack`: deep-unpacks until the value is no longer a variant. */
  method Vunpack(v: Value) returns (r: Value)
    ensures r == Peeled(v)
  {
    r := v;
    while r.Variant?
      invariant Peeled(r) == Peeled(v)
      decreases r
    {
      r := r.inner;
    }
  }

  // ---------------------------------------------------------------------
  // Mnemonic stripping
  // ---------------------------------------------------------------------

  /** The placeholder that protects escaped underscores during stripping. */
  const Nul: char := '\0'

  /** First pass: every non-overlapping "__", left to right, becomes Nul. */
  function EscapeDoubled(s: string): string
  {
    if |s| >= 2 && s[0] == '_' && s[1] == '_' then [Nul] + EscapeDoubled(s[2..])
    else if s == [] then []
    else [s[0]] + EscapeDoubled(s[1..])
  }

  /** Second pass: every remaining '_' is deleted. */
  function DropUnderscores(s: string): string
  {
    if s == [] then []
    else if s[0] == '_' then DropUnderscores(s[1..])
    else [s[0]] + DropUnderscores(s[1..])
  }

  /** Third pass: every Nul becomes '_'. */
  function NulsToUnderscores(s: string): string
  {
    if s == [] then []
    else [if s[0] == Nul then '_' else s[0]] + NulsToUnderscores(s[1..])
  }

  /** `stripMnemonic`: the three regular-expression passes in source order. */
  function StripMnemonic(text: string): string
  {
    if text == [] then ""
    else NulsToUnderscores(DropUnderscores(EscapeDoubled(text)))
  }

  /** Reference reading of mnemonic stripping as one left-to-right scan:
      "__" is an escaped underscore, a lone '_' a marker to drop, and a Nul
      already in the label comes out as '_'. */
  function MnemonicScan(s: string): string
  {
    if s == [] then []
    else if |s| >= 2 && s[0] == '_' && s[1] == '_' then "_" + MnemonicScan(s[2..])
    else if s[0] == '_' then MnemonicScan(s[1..])
    else if s[0] == Nul then "_" + MnemonicScan(s[1..])
    else [s[0]] + MnemonicScan(s[1..])
  }

  lemma {:induction false} PassesAreScan(s: string)
    ensures NulsToUnderscores(DropUnderscores(EscapeDoubled(s))) == MnemonicScan(s)
    decreases |s|
  {
    if s == [] {
    } else if |s| >= 2 && s[0] == '_' && s[1] == '_' {
      var rest := EscapeDoubled(s[2..]);
      assert EscapeDoubled(s) == [Nul] + rest;
      assert ([Nul] + rest)[1..] == rest;
      assert DropUnderscores([Nul] + rest) == [Nul] + DropUnderscores(rest);
      var d := DropUnderscores(rest);
      assert ([Nul] + d)[1..] == d;
      assert NulsToUnderscores([Nul] + d) == "_" + NulsToUnderscores(d);
      PassesAreScan(s[2..]);
    } else if s[0] == '_' {
      var rest := EscapeDoubled(s[1..]);
      assert EscapeDoubled(s) == ['_'] + rest;
      assert (['_'] + rest)[1..] == rest;
      PassesAreScan(s[1..]);
    } else {
      var rest := EscapeDoubled(s[1..]);
      assert EscapeDoubled(s) == [s[0]] + rest;
      assert ([s[0]] + rest)[1..] == rest;
      assert DropUnderscores([s[0]] + rest) == [s[0]] + DropUnderscores(rest);
      var d := DropUnderscores(rest);
      assert ([s[0]] + d)[1..] == d;
      PassesAreScan(s[1..]);
    }
  }

  /** The source's three passes agree with the one-scan reading on every label. */
  lemma StripMnemonicIsScan(text: string)
    ensures StripMnemonic(text) == MnemonicScan(text)
  {
    PassesAreScan(text);
  }

  lemma {:induction false} ScanNeverLonger(s: string)
    ensures |MnemonicScan(s)| <= |s|
    decreases |s|
  {
    if s == [] {
    } else if |s| >= 2 && s[0] == '_' && s[1] == '_' {
      ScanNeverLonger(s[2..]);
    } else {
      ScanNeverLonger(s[1..]);
    }
  }

  lemma {:induction false} ScanIdentity(s: string)
    requires forall i :: 0 <= i < |s| ==> s[i] != '_' && s[i] != Nul
    ensures MnemonicScan(s) == s
    decreases |s|
  {
    if s != [] {
      ScanIdentity(s[1..]);
    }
  }

  /** Stripping never lengthens a label and leaves a label without
      underscores or Nul characters as it is (so it is idempotent there). */
  lemma StripMnemonicBounds(text: string)
    ensures |StripMnemonic(text)| <= |text|
    ensures (forall i :: 0 <= i < |text| ==> text[i] != '_' && text[i] != Nul) ==>
              StripMnemonic(text) == text
  {
    StripMnemonicIsScan(text);
    ScanNeverLonger(text);
    if forall i :: 0 <= i < |text| ==> text[i] != '_' && text[i] != Nul {
      ScanIdentity(text);
    }
  }

  /** A doubled underscore is an escaped one and is kept as a single
      underscore. */
  lemma StripDoubledExample()
    ensures StripMnemonic("a__b") == "a_b"
  {
    StripMnemonicIsScan("a__b");
    assert MnemonicScan("b") == "b" by { assert "b"[1..] == []; }
    assert MnemonicScan("__b") == "_b" by { assert "__b"[2..] == "b"; }
    assert MnemonicScan("a__b") == "a_b" by { assert "a__b"[1..] == "__b"; }
  }

  /** A single underscore is a mnemonic marker and is dropped. */
  lemma StripSingleExample()
    ensures StripMnemonic("a_b") == "ab"
  {
    StripMnemonicIsScan("a_b");
    assert MnemonicScan("b") == "b" by { assert "b"[1..] == []; }
    assert MnemonicScan("_b") == "b" by { assert "_b"[1..] == "b"; }
    assert MnemonicScan("a_b") == "ab" by { assert "a_b"[1..] == "_b"; }
  }

  /** Pairs are taken left to right: of three underscores the first two
      are the escape and the third is a marker. */
  lemma StripTripleExample()
    ensures StripMnemonic("___") == "_"
  {
    StripMnemonicIsScan("___");
    assert MnemonicScan("_") == "" by { assert "_"[1..] == []; }
    assert MnemonicScan("___") == "_" by { assert "___"[2..] == "_"; }
  }

  /** An escaped underscore at the start of a label survives. */
  lemma StripQuitExample()
    ensures StripMnemonic("__Quit") == "_Quit"
  {
    StripMnemonicIsScan("__Quit");
    assert MnemonicScan("Quit") == "Quit" by { ScanIdentity("Quit"); }
    assert MnemonicScan("__Quit") == "_Quit" by { assert "__Quit"[2..] == "Quit"; }
  }

  /** A lone marker strips to the empty string, and a Nul already in the
      label comes out as an underscore. */
  lemma StripMnemonicEdgeCases()
    ensures StripMnemonic("_") == ""
    ensures StripMnemonic([Nul]) == "_"
  {
    StripMnemonicIsScan("_");
    assert "_"[1..] == [];
    StripMnemonicIsScan([Nul]);
    assert [Nul][1..] == [];
  }

  // ---------------------------------------------------------------------
  // Pixmap choice
  // ---------------------------------------------------------------------

  /** One `IconPixmap` entry: width, height and the pixel bytes, which the
      sender may leave out. Dimensions are non-negative. */
  datatype Pixmap = Pixmap(width: nat, height: nat, bytes: Option<seq<bv8>>)

  /** The record `bestPixmapForSize` returns. */
  datatype PixmapChoice = PixmapChoice(width: nat, height: nat, bytes: seq<bv8>, rowStride: nat)

  /** A candidate is considered only with non-zero dimensions, bytes present
      and a row stride (bytes per row, padding included) of at least 4*w. */
  predicate Usable(pm: Pixmap)
  {
    pm.width > 0 && pm.height > 0 && pm.bytes.Some? &&
    |pm.bytes.value| / pm.height >= 4 * pm.width
  }

  function MaxDim(pm: Pixmap): nat
  {
    if pm.width >= pm.height then pm.width else pm.height
  }

  const UndersizePenalty: int := 100000

  /** Distance from the target size, with a heavy penalty for candidates
      smaller than the target. */
  function Score(pm: Pixmap, target: int): int
  {
    var m := MaxDim(pm);
    (if m < target then UndersizePenalty else 0) + (if m >= target then m - target else target - m)
  }

  function ChoiceOf(pm: Pixmap): PixmapChoice
    requires Usable(pm)
  {
    PixmapChoice(pm.width, pm.height, pm.bytes.value, |pm.bytes.value| / pm.height)
  }

  /** Index `i` is the pick among the first `k` candidates: usable, no
      usable candidate scores lower, and every earlier usable one scores
      strictly higher (ties go to the earliest). */
  ghost predicate BestAmong(list: seq<Pixmap>, target: int, i: int, k: int)
    requires 0 <= k <= |list|
  {
    0 <= i < k && Usable(list[i]) &&
    forall j :: 0 <= j < k && Usable(list[j]) ==>
      Score(list[i], target) <= Score(list[j], target) &&
      (j < i ==> Score(list[j], target) > Score(list[i], target))
  }

  ghost predicate IsBest(list: seq<Pixmap>, target: int, i: int)
  {
    BestAmong(list, target, i, |list|)
  }

  /** `bestPixmapForSize`: nothing for a missing or empty list or when no
      candidate is usable; otherwise the usable candidate of minimal score,
      the earliest one on a tie. */
  method BestPixmapForSize(iconPixmaps: Option<seq<Pixmap>>, targetPx: int) returns (best: Option<PixmapChoice>)
    ensures iconPixmaps.None? ==> best.None?
    ensures iconPixmaps.Some? ==>
              (best.None? <==> forall j :: 0 <= j < |iconPixmaps.value| ==> !Usable(iconPixmaps.value[j]))
    ensures best.Some? ==>
              iconPixmaps.Some? &&
              exists i :: IsBest(iconPixmaps.value, targetPx, i) && best.value == ChoiceOf(iconPixmaps.value[i])
    ensures best.Some? ==>
              best.value.width > 0 && best.value.height > 0 &&
              best.value.rowStride == |best.value.bytes| / best.value.height &&
              best.value.rowStride >= 4 * best.value.width
  {
    if iconPixmaps.None? {
      return None;
    }
    var list := iconPixmaps.value;
    if |list| == 0 {
      return None;
    }
    best := None;
    var bestScore: Option<int> := None;  // positive infinity
    ghost var at := -1;
    for k := 0 to |list|
      invariant best.None? <==> bestScore.None?
      invariant best.None? ==> forall j :: 0 <= j < k ==> !Usable(list[j])
      invariant best.Some? ==>
                  BestAmong(list, targetPx, at, k) && best.value == ChoiceOf(list[at]) &&
                  bestScore.value == Score(list[at], targetPx)
    {
      var pm := list[k];
      if pm.width == 0 || pm.height == 0 || pm.bytes.None? {
        continue;
      }
      var rowStride := |pm.bytes.value| / pm.height;
      if rowStride < pm.width * 4 {
        continue;
      }
      var maxDim := if pm.width >= pm.height then pm.width else pm.height;
      var penalty := if maxDim < targetPx then UndersizePenalty else 0;
      var score := penalty + (if maxDim >= targetPx then maxDim - targetPx else targetPx - maxDim);
      if bestScore.None? || score < bestScore.value {
        bestScore := Some(score);
        best := Some(PixmapChoice(pm.width, pm.height, pm.bytes.value, rowStride));
        at := k;
      }
    }
  }

  /** The pick is determined: two indices that both satisfy the choice rule
      are the same. */
  lemma BestIsUnique(list: seq<Pixmap>, target: int, i: int, j: int)
    requires IsBest(list, target, i) && IsBest(list, target, j)
    ensures i == j
  {
  }

  /** A usable candidate no smaller than the target and less than 100001
      pixels above it beats every undersized candidate, so the pick is then
      never undersized. */
  lemma OversizedBeatsUndersized(list: seq<Pixmap>, target: int, i: int, j: int)
    requires IsBest(list, target, i)
    requires 0 <= j < |list| && Usable(list[j])
    requires target <= MaxDim(list[j]) < target + UndersizePenalty + 1
    ensures MaxDim(list[i]) >= target
  {
    assert Score(list[i], target) <= Score(list[j], target);
  }
}
