/** Names of generated cluster objects: truncation arithmetic and DNS label syntax
    (section 2.3.4 of RFC 1035, section 2.1 of RFC 1123).  Strings stand for byte strings. */
module Names {
  /** The 32-bit FNV-1a hash of a name, as an abstract function. */
  type Hash = string -> nat

  /** Hashes whose text has the six digits that names take from it. */
  type WideHash = h: Hash | forall s: string :: h(s) >= 0x10_0000 witness (s => 0x10_0000)

  // ---------------------------------------------------------------- hash text

  const HEX := "0123456789abcdef"

  /** Lower-case hexadecimal text without leading zeros. */
  function HexText(n: nat): (s: string)
    ensures |s| > 0 && forall k | 0 <= k < |s| :: s[k] in HEX
  {
    if n < 16 then [HEX[n]] else HexText(n / 16) + [HEX[n % 16]]
  }

  function Pow16(d: nat): nat { if d == 0 then 1 else 16 * Pow16(d - 1) }

  lemma {:induction false} HexLength(n: nat, d: nat)
    requires d > 0
    ensures |HexText(n)| > d <==> n >= Pow16(d)
    decreases n
  {
    if n >= 16 {
      if d > 1 {
        HexLength(n / 16, d - 1);
      } else {
        assert Pow16(1) == 16;
      }
    } else {
      Pow16AtLeast16(d);
    }
  }

  lemma {:induction false} Pow16AtLeast16(d: nat)
    requires d > 0
    ensures Pow16(d) >= 16
  {
    if d > 1 {
      Pow16AtLeast16(d - 1);
    } else {
      assert Pow16(0) == 1;
    }
  }

  /** The first six digits exist exactly for hashes of at least 0x100000. */
  lemma SixDigits(n: nat)
    ensures |HexText(n)| >= 6 <==> n >= 0x10_0000
  {
    HexLength(n, 5);
    assert Pow16(5) == 0x10_0000 by {
      assert Pow16(1) == 16 && Pow16(2) == 256 && Pow16(3) == 4096 && Pow16(4) == 65536;
    }
  }

  /** What a lower-case hexadecimal digit counts. */
  function DigitValue(c: char): nat {
    if '0' <= c <= '9' then c as nat - '0' as nat else if 'a' <= c <= 'f' then c as nat - 'a' as nat + 10 else 0
  }

  /** The number a text of digits denotes, most significant digit first. */
  function HexValue(s: string): nat {
    if s == "" then 0 else 16 * HexValue(s[..|s| - 1]) + DigitValue(s[|s| - 1])
  }

  lemma DigitAt(d: nat)
    requires d < 16
    ensures DigitValue(HEX[d]) == d && (HEX[d] == '0' <==> d == 0)
  {
  }

  /** The text of a number denotes it, and starts with no zero. */
  lemma {:induction false} HexTextValue(n: nat)
    ensures HexValue(HexText(n)) == n && (HexText(n)[0] == '0' <==> n == 0)
    decreases n
  {
    DigitAt(n % 16);
    if n >= 16 {
      HexTextValue(n / 16);
      assert HexText(n)[..|HexText(n)| - 1] == HexText(n / 16);
    }
  }

  /** v is what is left of n when a factor is divided off. */
  predicate Leads(v: nat, factor: nat, n: nat) { v * factor <= n < (v + 1) * factor }

  lemma LeadsMore(v: nat, factor: nat, n: nat)
    requires Leads(v, factor, n / 16)
    ensures Leads(v, 16 * factor, n)
  {
    var x, y := v * factor, (v + 1) * factor;
    assert v * (16 * factor) == 16 * x && (v + 1) * (16 * factor) == 16 * y;
  }

  lemma HexTextStep(n: nat)
    ensures if n < 16 then |HexText(n)| == 1 else HexText(n) == HexText(n / 16) + [HEX[n % 16]]
  {
  }

  lemma LeadsWhole(n: nat)
    ensures Leads(n, Pow16(0), n)
  {
  }

  /** The first digits denote what is left of the number when the others are dropped. */
  lemma {:induction false} HexPrefix(n: nat, k: nat)
    requires 0 < k <= |HexText(n)|
    ensures Leads(HexValue(HexText(n)[..k]), Pow16(|HexText(n)| - k), n)
    decreases n
  {
    hide HexText, HexValue, Leads;
    var s := HexText(n);
    HexTextStep(n);
    if k == |s| {
      HexTextValue(n);
      LeadsWhole(n);
      assert s[..k] == s;
    } else {
      assert s[..k] == HexText(n / 16)[..k];
      HexPrefix(n / 16, k);
      LeadsMore(HexValue(s[..k]), Pow16(|HexText(n / 16)| - k), n);
      assert Pow16(|s| - k) == 16 * Pow16(|HexText(n / 16)| - k);
    }
  }

  /** The text is the beginning of the number's, and denotes its leading digits, of which the first
      is not zero. */
  ghost predicate IsLeading(digits: string, n: nat) {
    digits != "" && digits <= HexText(n) && digits[0] != '0' && Leads(HexValue(digits), Pow16(|HexText(n)| - |digits|), n)
  }

  // ---------------------------------------------------------------- labels

  predicate IsAlnum(c: char) { 'a' <= c <= 'z' || '0' <= c <= '9' }

  predicate IsLabelText(s: string) { forall k | 0 <= k < |s| :: IsAlnum(s[k]) || s[k] == '-' }

  predicate IsLabel(s: string) {
    1 <= |s| <= 63 && IsLabelText(s) && IsAlnum(s[0]) && IsAlnum(s[|s| - 1])
  }

  function Clip(s: string, n: nat): string { if |s| > n then s[..n] else s }

  /** Go's integer division, which truncates toward zero. */
  function GoDiv(a: int, b: int): int
    requires b > 0
  {
    if a >= 0 then a / b else -((-a) / b)
  }

  // ---------------------------------------------------------------- TruncatedName

  function FullName(prefix: string, a: string, b: string): string {
    if prefix == "" then a + "-" + b else prefix + "-" + a + "-" + b
  }

  /** Space for a and b when a hash suffix is needed. */
  function Available(maxLen: int, prefix: string): int {
    maxLen - |prefix| - (if prefix == "" then 2 else 3) - 6
  }

  /** The slice bounds the code uses, in Go arithmetic. */
  function SliceBounds(maxLen: int, prefix: string, a: string): (int, int) {
    var available := Available(maxLen, prefix);
    var halfLen := GoDiv(available, 2);
    var lenA := if |a| > halfLen then halfLen else |a|;
    (halfLen, available - lenA)
  }

  /** No slice is out of range exactly if there is room for prefix, separators and hash. */
  lemma SlicesInRange(maxLen: int, prefix: string, a: string, b: string)
    ensures var (forA, forB) := SliceBounds(maxLen, prefix, a);
            (|a| > forA ==> 0 <= forA) && (|b| > forB ==> 0 <= forB) <==> Available(maxLen, prefix) >= 0
  {
  }

  predicate Nameable(h: Hash, maxLen: int, prefix: string, a: string, b: string) {
    var full := FullName(prefix, a, b);
    |full| <= maxLen || (Available(maxLen, prefix) >= 0 && h(full) >= 0x10_0000)
  }

  function SixDigitHash(h: Hash, s: string): (d: string)
    requires h(s) >= 0x10_0000
    ensures |d| == 6 && forall k | 0 <= k < 6 :: d[k] in HEX
  {
    SixDigits(h(s));
    HexText(h(s))[..6]
  }

  lemma LeadingDigits(h: Hash, s: string)
    requires h(s) >= 0x10_0000
    ensures IsLeading(SixDigitHash(h, s), h(s))
  {
    SixDigits(h(s));
    hide Leads, HexValue, Pow16;
    HexPrefix(h(s), 6);
    HexTextValue(h(s));
  }

  function NameOf(h: Hash, maxLen: int, prefix: string, a: string, b: string): string
    requires Nameable(h, maxLen, prefix, a, b)
  {
    var full := FullName(prefix, a, b);
    if |full| <= maxLen then full
    else
      Shortened(Available(maxLen, prefix), prefix, a, b) + "-" + SixDigitHash(h, full)
  }

  /** The name before its hash: at most half the room for a, what is then left for b. */
  function Shortened(available: nat, prefix: string, a: string, b: string): (s: string)
    ensures |s| <= available + (if prefix == "" then 1 else |prefix| + 2)
  {
    var truncA := Clip(a, available / 2);
    FullName(prefix, truncA, Clip(b, available - |truncA|))
  }

  method TruncatedName(h: Hash, maxLen: int, prefix: string, a: string, b: string) returns (name: string)
    requires Nameable(h, maxLen, prefix, a, b)
    ensures name == NameOf(h, maxLen, prefix, a, b)
  {
    var full := FullName(prefix, a, b);
    if |full| <= maxLen {
      return full;
    }
    var hash := SixDigitHash(h, full);
    var separators := 2;
    if prefix != "" {
      separators := 3;
    }
    var available := maxLen - |prefix| - separators - |hash|;
    assert available == Available(maxLen, prefix) && |full| > maxLen;
    name := Shorten(available, prefix, a, b);
    name := name + "-" + hash;
  }

  method Shorten(available: int, prefix: string, a: string, b: string) returns (s: string)
    requires available >= 0
    ensures s == Shortened(available, prefix, a, b)
  {
    var halfLen := GoDiv(available, 2);
    var truncA := a;
    if |truncA| > halfLen {
      truncA := truncA[..halfLen];
    }
    var truncB := b;
    var remaining := available - |truncA|;
    if |truncB| > remaining {
      truncB := truncB[..remaining];
    }
    s := FullName(prefix, truncA, truncB);
  }

  /** The whole form of a name: the parts joined by dashes if that fits, else as much of the first
      part as half the room holds, as much of the second as the rest holds, and six digits that are
      the leading ones of the hash of the full name. */
  lemma NameForm(h: Hash, maxLen: int, prefix: string, a: string, b: string) returns (cutA: string, cutB: string, digits: string)
    requires Nameable(h, maxLen, prefix, a, b)
    ensures var start := if prefix == "" then "" else prefix + "-";
            var full, room := start + a + "-" + b, maxLen - |start| - 8;
            if |full| <= maxLen then NameOf(h, maxLen, prefix, a, b) == full
            else
              && NameOf(h, maxLen, prefix, a, b) == start + cutA + "-" + cutB + "-" + digits
              && cutA <= a && (if |a| <= room / 2 then cutA == a else |cutA| == room / 2)
              && cutB <= b && (if |b| <= room - |cutA| then cutB == b else |cutB| == room - |cutA|)
              && |digits| == 6 && IsLeading(digits, h(full))
  {
    var available := Available(maxLen, prefix);
    FullNameIs(prefix, a, b);
    cutA, cutB, digits := "", "", "";
    if |FullName(prefix, a, b)| > maxLen {
      cutA := Clip(a, available / 2);
      cutB := Clip(b, available - |cutA|);
      digits := SixDigitHash(h, FullName(prefix, a, b));
      LeadingDigits(h, FullName(prefix, a, b));
      FullNameIs(prefix, cutA, cutB);
    }
    hide FullName, SixDigitHash, IsLeading;
    NameCases(h, maxLen, prefix, a, b, cutA, cutB);
  }

  lemma FullNameIs(prefix: string, a: string, b: string)
    ensures FullName(prefix, a, b) == (if prefix == "" then "" else prefix + "-") + a + "-" + b
  {
    assert "" + a == a;
    assert prefix + "-" + a + "-" + b == (prefix + "-") + a + "-" + b;
  }

  lemma NameLength(h: Hash, maxLen: int, prefix: string, a: string, b: string)
    requires Nameable(h, maxLen, prefix, a, b)
    ensures |NameOf(h, maxLen, prefix, a, b)| <= maxLen
  {
  }

  // Label syntax of concatenations.
  lemma TextConcat(s: string, t: string)
    requires IsLabelText(s) && IsLabelText(t)
    ensures IsLabelText(s + t)
  {
  }

  lemma FullNameText(prefix: string, a: string, b: string)
    requires IsLabelText(prefix) && IsLabelText(a) && IsLabelText(b)
    ensures IsLabelText(FullName(prefix, a, b))
  {
  }

  lemma FullNameEnds(prefix: string, a: string, b: string)
    ensures var full := FullName(prefix, a, b);
            && full[0] == (if prefix != "" then prefix[0] else if a != "" then a[0] else '-')
            && full[|full| - 1] == (if b != "" then b[|b| - 1] else '-')
  {
  }

  // Label text ended by six hash digits is a label exactly if it starts well.
  lemma HashEndsLabel(body: string, hash: string)
    requires |hash| == 6 && forall k | 0 <= k < 6 :: hash[k] in HEX
    requires body != "" && IsLabelText(body) && |body| <= 57
    ensures IsLabel(body + hash) <==> IsAlnum(body[0])
  {
  }

  /** From labels a name is a label, except in one corner: without a prefix, truncation to fewer
      than two characters of room leaves nothing of a and the name starts with a dash. */
  lemma NameIsLabel(h: Hash, maxLen: int, prefix: string, a: string, b: string)
    requires Nameable(h, maxLen, prefix, a, b) && maxLen <= 63
    requires IsLabel(a) && IsLabel(b) && (prefix == "" || IsLabel(prefix))
    ensures IsLabel(NameOf(h, maxLen, prefix, a, b)) <==>
            |FullName(prefix, a, b)| <= maxLen || prefix != "" || Available(maxLen, prefix) >= 2
  {
    var full := FullName(prefix, a, b);
    if |full| <= maxLen {
      FullNameText(prefix, a, b);
      FullNameEnds(prefix, a, b);
    } else {
      TruncatedIsLabel(h, maxLen, prefix, a, b);
    }
  }

  lemma TruncatedIsLabel(h: Hash, maxLen: int, prefix: string, a: string, b: string)
    requires Nameable(h, maxLen, prefix, a, b) && maxLen <= 63 && |FullName(prefix, a, b)| > maxLen
    requires IsLabel(a) && IsLabel(b) && (prefix == "" || IsLabel(prefix))
    ensures IsLabel(NameOf(h, maxLen, prefix, a, b)) <==> prefix != "" || Available(maxLen, prefix) >= 2
  {
    var available := Available(maxLen, prefix);
    var body, hash := Shortened(available, prefix, a, b), SixDigitHash(h, FullName(prefix, a, b));
    ShortenedOpens(available, prefix, a, b);
    TextConcat(body, "-");
    HashEndsLabel(body + "-", hash);
    assert (body + "-")[0] == body[0];
  }

  lemma ShortenedOpens(available: nat, prefix: string, a: string, b: string)
    requires IsLabel(a) && IsLabel(b) && (prefix == "" || IsLabel(prefix))
    ensures var s := Shortened(available, prefix, a, b);
            s != "" && IsLabelText(s) && (IsAlnum(s[0]) <==> prefix != "" || available >= 2)
  {
  }

  // ---------------------------------------------------------------- collisions

  /** The pair a name reads as: itself if it is short, else what is left of it, with the hash as
      the end of the second part. */
  function ReadAs(h: Hash, maxLen: int, prefix: string, a: string, b: string): (string, string)
    requires Nameable(h, maxLen, prefix, a, b)
  {
    var full, available := FullName(prefix, a, b), Available(maxLen, prefix);
    if |full| <= maxLen then (a, b)
    else
      var truncA := Clip(a, available / 2);
      (truncA, Clip(b, available - |truncA|) + "-" + SixDigitHash(h, full))
  }

  lemma AppendToSecond(prefix: string, a: string, b: string, text: string)
    ensures FullName(prefix, a, b) + "-" + text == FullName(prefix, a, b + "-" + text)
    ensures '-' in b + "-" + text
  {
    assert (b + "-" + text)[|b|] == '-';
  }

  // The two forms of a name.
  lemma NameCases(h: Hash, maxLen: int, prefix: string, a: string, b: string, c: string, rest: string)
    requires Nameable(h, maxLen, prefix, a, b)
    ensures var full, available := FullName(prefix, a, b), Available(maxLen, prefix);
            if |full| <= maxLen then NameOf(h, maxLen, prefix, a, b) == full && ReadAs(h, maxLen, prefix, a, b) == (a, b)
            else
              c == Clip(a, available / 2) && rest == Clip(b, available - |c|) ==>
                && NameOf(h, maxLen, prefix, a, b) == FullName(prefix, c, rest) + "-" + SixDigitHash(h, full)
                && ReadAs(h, maxLen, prefix, a, b) == (c, rest + "-" + SixDigitHash(h, full))
  {
    hide FullName, SixDigitHash, Clip;
  }

  /** Every name is also the full name of the pair it reads as, which is short. */
  lemma NameReads(h: Hash, maxLen: int, prefix: string, a: string, b: string)
    requires Nameable(h, maxLen, prefix, a, b)
    ensures var (c, d) := ReadAs(h, maxLen, prefix, a, b);
            && NameOf(h, maxLen, prefix, a, b) == FullName(prefix, c, d) && |FullName(prefix, c, d)| <= maxLen
            && (|FullName(prefix, a, b)| > maxLen ==> '-' in d)
  {
    NameLength(h, maxLen, prefix, a, b);
    var full, available := FullName(prefix, a, b), Available(maxLen, prefix);
    if |full| <= maxLen {
      NameCases(h, maxLen, prefix, a, b, a, b);
    } else {
      var c := Clip(a, available / 2);
      var rest := Clip(b, available - |c|);
      hide FullName, NameOf, Shortened, SixDigitHash, Clip, Nameable, ReadAs;
      NameCases(h, maxLen, prefix, a, b, c, rest);
      AppendToSecond(prefix, c, rest, SixDigitHash(h, full));
    }
  }

  /** Another pair has the same name. */
  ghost predicate SharesName(h: Hash, maxLen: int, prefix: string, a: string, b: string, c: string, d: string)
    requires Nameable(h, maxLen, prefix, a, b)
  {
    && (c, d) != (a, b) && Nameable(h, maxLen, prefix, c, d)
    && NameOf(h, maxLen, prefix, c, d) == NameOf(h, maxLen, prefix, a, b)
  }

  /** Exactly when a name is not unique: it was shortened, hash or no hash, or a part has a dash. */
  lemma SharedExactly(h: Hash, maxLen: int, prefix: string, a: string, b: string)
    requires Nameable(h, maxLen, prefix, a, b)
    ensures (exists c, d :: SharesName(h, maxLen, prefix, a, b, c, d)) <==>
            |FullName(prefix, a, b)| > maxLen || '-' in a || '-' in b
  {
    if |FullName(prefix, a, b)| > maxLen || '-' in a || '-' in b {
      var _, _ := SharingPair(h, maxLen, prefix, a, b);
    } else if c, d :| SharesName(h, maxLen, prefix, a, b, c, d) {
      NameReads(h, maxLen, prefix, c, d);
      var (x, z) := ReadAs(h, maxLen, prefix, c, d);
      SameFullName(prefix, a, b, x, z);
      OnlyDash(a, b, x, z);
      assert false;
    }
  }

  lemma DivideElsewhere(prefix: string, a: string, b: string, i: nat)
    ensures i < |a| && a[i] == '-' ==> FullName(prefix, a[..i], a[i + 1..] + "-" + b) == FullName(prefix, a, b)
    ensures i < |b| && b[i] == '-' ==> FullName(prefix, a + "-" + b[..i], b[i + 1..]) == FullName(prefix, a, b)
  {
    if i < |a| && a[i] == '-' {
      assert a == a[..i] + "-" + a[i + 1..];
      SameFullName(prefix, a[..i], a[i + 1..] + "-" + b, a, b);
    }
    if i < |b| && b[i] == '-' {
      assert b == b[..i] + "-" + b[i + 1..];
      SameFullName(prefix, a + "-" + b[..i], b[i + 1..], a, b);
    }
  }

  /** The other pair: what a shortened name reads as, or the parts divided at another dash. */
  lemma SharingPair(h: Hash, maxLen: int, prefix: string, a: string, b: string) returns (c: string, d: string)
    requires Nameable(h, maxLen, prefix, a, b)
    requires |FullName(prefix, a, b)| > maxLen || '-' in a || '-' in b
    ensures SharesName(h, maxLen, prefix, a, b, c, d) && |FullName(prefix, c, d)| <= maxLen
  {
    hide FullName, Shortened, SixDigitHash;
    if |FullName(prefix, a, b)| > maxLen {
      NameReads(h, maxLen, prefix, a, b);
      c, d := ReadAs(h, maxLen, prefix, a, b).0, ReadAs(h, maxLen, prefix, a, b).1;
    } else if '-' in a {
      var i :| 0 <= i < |a| && a[i] == '-';
      DivideElsewhere(prefix, a, b, i);
      c, d := a[..i], a[i + 1..] + "-" + b;
    } else {
      var i :| 0 <= i < |b| && b[i] == '-';
      DivideElsewhere(prefix, a, b, i);
      c, d := a + "-" + b[..i], b[i + 1..];
    }
  }

  lemma SameFullName(prefix: string, a: string, b: string, c: string, d: string)
    ensures FullName(prefix, a, b) == FullName(prefix, c, d) <==> a + "-" + b == c + "-" + d
  {
    var start := if prefix == "" then "" else prefix + "-";
    var x, y := FullName(prefix, a, b), FullName(prefix, c, d);
    assert x == start + (a + "-" + b) && y == start + (c + "-" + d);
    assert x[|start|..] == a + "-" + b && y[|start|..] == c + "-" + d;
  }

  lemma OnlyDash(a: string, b: string, c: string, d: string)
    requires '-' !in a && '-' !in b && a + "-" + b == c + "-" + d
    ensures a == c && b == d
  {
    var s, t := a + "-" + b, c + "-" + d;
    assert t[|c|] == '-';
    assert s[..|a|] == a && t[..|c|] == c && s[|a| + 1..] == b && t[|c| + 1..] == d;
  }

  /** For instance, with prefix le and 63 characters. */
  lemma NamesCollide(h: Hash)
    ensures SharesName(h, 63, "le", "a-b", "c", "a", "b-c")
    ensures NameOf(h, 63, "le", "a-b", "c") == NameOf(h, 63, "le", "a", "b-c") == "le-a-b-c"
  {
  }

  /** Pairs whose first part has no dash have the same name exactly if they read as the same pair:
      two short ones if they are the same, a short and a long one if the short one is what is left
      of the long one with its hash, two long ones if the same is left of both and the hashes agree. */
  lemma DashFreeNamesSeparate(h: Hash, maxLen: int, prefix: string, a: string, b: string, c: string, d: string)
    requires Nameable(h, maxLen, prefix, a, b) && Nameable(h, maxLen, prefix, c, d)
    requires '-' !in a && '-' !in c
    ensures NameOf(h, maxLen, prefix, a, b) == NameOf(h, maxLen, prefix, c, d) <==>
            ReadAs(h, maxLen, prefix, a, b) == ReadAs(h, maxLen, prefix, c, d)
  {
    NameReads(h, maxLen, prefix, a, b);
    NameReads(h, maxLen, prefix, c, d);
    var (x, y) := ReadAs(h, maxLen, prefix, a, b);
    var (z, w) := ReadAs(h, maxLen, prefix, c, d);
    SameFullName(prefix, x, y, z, w);
    if x + "-" + y == z + "-" + w {
      FirstDash(x, y, z, w);
    }
  }

  lemma FirstDash(a: string, b: string, c: string, d: string)
    requires '-' !in a && '-' !in c && a + "-" + b == c + "-" + d
    ensures a == c && b == d
  {
    var s, t := a + "-" + b, c + "-" + d;
    assert s[|a|] == '-' && t[|c|] == '-';
    assert s[..|a|] == a && t[..|c|] == c;
    assert forall k | 0 <= k < |c| :: t[k] == c[k];
    assert forall k | 0 <= k < |a| :: s[k] == a[k];
    assert |a| == |c|;
    assert s[|a| + 1..] == b && t[|c| + 1..] == d;
  }

  // ---------------------------------------------------------------- ComponentName

  const COMPONENT_MAX := 52

  function ComponentName(h: Hash, engine: string, model: string): string
    requires Nameable(h, COMPONENT_MAX, "", engine, model)
  {
    NameOf(h, COMPONENT_MAX, "", engine, model)
  }

  /** The name the engine controller looks a Deployment up under. */
  function LookupName(engine: string, model: string): string { engine + "-" + model }

  /** The Deployment that was applied is the one looked up exactly for pairs that fit. */
  lemma LookupFindsComponent(h: Hash, engine: string, model: string)
    requires Nameable(h, COMPONENT_MAX, "", engine, model)
    ensures LookupName(engine, model) == ComponentName(h, engine, model) <==>
            |LookupName(engine, model)| <= COMPONENT_MAX
    ensures engine + "-" + model == ComponentName(h, engine, model) <==> |engine| + 1 + |model| <= 52
    ensures LookupName(engine, model) == engine + "-" + model
  {
  }

  // ---------------------------------------------------------------- generateJobName

  const JOB_MAX := 63

  /** Lengths left for repository and revision once both must be cut. */
  function JobLengths(jobType: string): (int, int) {
    var forNames := JOB_MAX - (|jobType| + 1) - 1 - 7;
    var model := GoDiv(forNames * 3, 5);
    var revision := forNames - model - 1;
    if model < 8 && forNames - 8 - 1 < 6 then (forNames - 6 - 1, 6)
    else if model < 8 then (8, forNames - 8 - 1)
    else if revision < 6 then (forNames - 6 - 1, 6)
    else (model, revision)
  }

  /** Both cuts are in range exactly for job types of at most 47 characters. */
  lemma JobLengthsInRange(jobType: string)
    ensures JobLengths(jobType).0 >= 0 && JobLengths(jobType).1 >= 0 <==> |jobType| <= 47
  {
  }

  /** How the room is shared: all of it is used, the revision keeps at least six characters, and
      unless that or the repository's eight is at stake, the repository gets three fifths. */
  lemma JobRoomShared(jobType: string)
    requires |jobType| <= 54
    ensures var (forRepo, forRevision) := JobLengths(jobType);
            var room := 63 - (|jobType| + 1) - 1 - 7;
            && forRepo + 1 + forRevision == room && forRevision >= 6
            && (if room >= 15 then forRepo >= 8 else forRevision == 6)
            && (forRepo > 8 && forRevision > 6 ==> 5 * forRepo <= 3 * room < 5 * (forRepo + 1))
            && (forRepo == 8 || forRevision == 6 || 5 * forRepo <= 3 * room < 5 * (forRepo + 1))
  {
  }

  /** Repository and revision need not be cut. */
  predicate JobFits(jobType: string, repo: string, revision: string) {
    |jobType| + 1 + |repo| + 1 + |revision| <= JOB_MAX - 1
  }

  predicate JobNameable(h: Hash, jobType: string, repo: string, revision: string) {
    if revision == "" then
      |jobType| + 1 + |repo| <= JOB_MAX || (|jobType| <= 55 && h(repo) >= 0x10_0000)
    else
      JobFits(jobType, repo, revision)
      || (|jobType| <= 47 && h(repo + "-" + revision) >= 0x10_0000)
  }

  function JobNameOf(h: Hash, jobType: string, repo: string, revision: string): string
    requires JobNameable(h, jobType, repo, revision)
  {
    if revision == "" then
      if |jobType| + 1 + |repo| <= JOB_MAX then jobType + "-" + repo
      else jobType + "-" + repo[..JOB_MAX - |jobType| - 1 - 7] + "-" + SixDigitHash(h, repo)
    else if JobFits(jobType, repo, revision) then jobType + "-" + repo + "-" + revision
    else
      var (forRepo, forRevision) := JobLengths(jobType);
      jobType + "-" + Clip(repo, forRepo) + "-" + Clip(revision, forRevision) + "-"
      + SixDigitHash(h, repo + "-" + revision)
  }

  method GenerateJobName(h: Hash, jobType: string, repo: string, revision: string) returns (name: string)
    requires JobNameable(h, jobType, repo, revision)
    ensures name == JobNameOf(h, jobType, repo, revision)
  {
    var prefix := jobType + "-";
    if revision == "" {
      var available := JOB_MAX - |prefix|;
      if |repo| <= available {
        return prefix + repo;
      }
      var truncated := repo[..available - 7];
      SixDigits(h(repo));
      return prefix + truncated + "-" + HexText(h(repo))[..6];
    }
    var available := JOB_MAX - |prefix| - 1;
    var combined := repo + "-" + revision;
    if |combined| <= available {
      assert prefix + combined == jobType + "-" + repo + "-" + revision;
      return prefix + combined;
    }
    var availableForNames := available - 7;
    var repoMax := GoDiv(availableForNames * 3, 5);
    var revisionMax := availableForNames - repoMax - 1;
    if repoMax < 8 {
      repoMax := 8;
      revisionMax := availableForNames - repoMax - 1;
    }
    if revisionMax < 6 {
      revisionMax := 6;
      repoMax := availableForNames - revisionMax - 1;
    }
    assert (repoMax, revisionMax) == JobLengths(jobType);
    var truncatedRepo := repo;
    if |truncatedRepo| > repoMax {
      truncatedRepo := truncatedRepo[..repoMax];
    }
    var truncatedRevision := revision;
    if |truncatedRevision| > revisionMax {
      truncatedRevision := truncatedRevision[..revisionMax];
    }
    SixDigits(h(combined));
    return prefix + truncatedRepo + "-" + truncatedRevision + "-" + HexText(h(combined))[..6];
  }

  lemma JobNameLength(h: Hash, jobType: string, repo: string, revision: string)
    requires JobNameable(h, jobType, repo, revision)
    ensures |JobNameOf(h, jobType, repo, revision)| <= if revision == "" then 63 else 62
  {
  }

  lemma JobNameIsLabel(h: Hash, jobType: string, repo: string, revision: string)
    requires JobNameable(h, jobType, repo, revision)
    requires IsLabel(jobType) && IsLabel(repo) && (revision == "" || IsLabel(revision))
    ensures IsLabel(JobNameOf(h, jobType, repo, revision))
  {
    JobNameLength(h, jobType, repo, revision);
    if revision == "" {
      RepoJobIsLabel(h, jobType, repo);
    } else if JobFits(jobType, repo, revision) {
      FullNameText(jobType, repo, revision);
      FullNameEnds(jobType, repo, revision);
      assert JobNameOf(h, jobType, repo, revision) == FullName(jobType, repo, revision);
    } else {
      CutJobIsLabel(h, jobType, repo, revision);
    }
  }

  lemma CutJobIsLabel(h: Hash, jobType: string, repo: string, revision: string)
    requires JobNameable(h, jobType, repo, revision) && revision != ""
    requires !JobFits(jobType, repo, revision)
    requires IsLabel(jobType) && IsLabel(repo) && IsLabel(revision)
    ensures IsLabel(JobNameOf(h, jobType, repo, revision))
  {
    var (forRepo, forRevision) := JobLengths(jobType);
    var cutRepo, cutRevision := Clip(repo, forRepo), Clip(revision, forRevision);
    FullNameText(jobType, cutRepo, cutRevision);
    FullNameEnds(jobType, cutRepo, cutRevision);
    HashedJobIsLabel(FullName(jobType, cutRepo, cutRevision), SixDigitHash(h, repo + "-" + revision));
  }

  lemma RepoJobIsLabel(h: Hash, jobType: string, repo: string)
    requires JobNameable(h, jobType, repo, "") && IsLabel(jobType) && IsLabel(repo)
    ensures IsLabel(JobNameOf(h, jobType, repo, ""))
  {
    JobNameLength(h, jobType, repo, "");
    var fits := |jobType| + 1 + |repo| <= JOB_MAX;
    var cut := if fits then repo else repo[..JOB_MAX - |jobType| - 1 - 7];
    FullNameText("", jobType, cut);
    FullNameEnds("", jobType, cut);
    if !fits {
      HashedJobIsLabel(FullName("", jobType, cut), SixDigitHash(h, repo));
    }
  }

  lemma HashedJobIsLabel(body: string, hash: string)
    requires |hash| == 6 && forall k | 0 <= k < 6 :: hash[k] in HEX
    requires body != "" && IsLabelText(body) && |body| <= 56 && IsAlnum(body[0])
    ensures IsLabel(body + "-" + hash)
  {
  }

  // ---------------------------------------------------------------- shared job names

  /** The repository and revision a job name reads as, as for other names. */
  function JobReadAs(h: Hash, jobType: string, repo: string, revision: string): (string, string)
    requires JobNameable(h, jobType, repo, revision) && revision != ""
  {
    if JobFits(jobType, repo, revision) then (repo, revision)
    else
      var (forRepo, forRevision) := JobLengths(jobType);
      (Clip(repo, forRepo), Clip(revision, forRevision) + "-" + SixDigitHash(h, repo + "-" + revision))
  }

  // The two forms of a job name.
  lemma JobNameCases(h: Hash, jobType: string, repo: string, revision: string, c: string, rest: string)
    requires JobNameable(h, jobType, repo, revision) && revision != ""
    ensures if JobFits(jobType, repo, revision) then
              && JobNameOf(h, jobType, repo, revision) == jobType + "-" + repo + "-" + revision
              && JobReadAs(h, jobType, repo, revision) == (repo, revision)
            else
              var hash := SixDigitHash(h, repo + "-" + revision);
              c == Clip(repo, JobLengths(jobType).0) && rest == Clip(revision, JobLengths(jobType).1) ==>
                && JobNameOf(h, jobType, repo, revision) == jobType + "-" + c + "-" + rest + "-" + hash
                && JobReadAs(h, jobType, repo, revision) == (c, rest + "-" + hash)
  {
    hide Clip, SixDigitHash, JobLengths;
  }

  lemma JobText(jobType: string, a: string, b: string, hash: string)
    ensures jobType + "-" + a + "-" + b == jobType + "-" + FullName("", a, b)
    ensures jobType + "-" + a + "-" + b + "-" + hash == jobType + "-" + FullName("", a, b + "-" + hash)
    ensures hash != "" ==> var d := b + "-" + hash; d[..|d| - 1][|b|] == '-'
  {
  }

  /** Every job name is also that of the repository and revision it reads as, which fits. */
  lemma JobNameReads(h: Hash, jobType: string, repo: string, revision: string)
    requires JobNameable(h, jobType, repo, revision) && revision != ""
    ensures var (c, d) := JobReadAs(h, jobType, repo, revision);
            && JobNameOf(h, jobType, repo, revision) == jobType + "-" + FullName("", c, d)
            && JobFits(jobType, c, d) && d != ""
            && if JobFits(jobType, repo, revision) then (c, d) == (repo, revision) else '-' in d[..|d| - 1]
  {
    JobNameLength(h, jobType, repo, revision);
    if JobFits(jobType, repo, revision) {
      JobNameCases(h, jobType, repo, revision, "", "");
      JobText(jobType, repo, revision, "");
    } else {
      var hash := SixDigitHash(h, repo + "-" + revision);
      var c, rest := Clip(repo, JobLengths(jobType).0), Clip(revision, JobLengths(jobType).1);
      hide JobNameOf, JobReadAs, JobNameable, Clip, SixDigitHash, JobLengths;
      JobNameCases(h, jobType, repo, revision, c, rest);
      JobText(jobType, c, rest, hash);
    }
  }

  /** Another repository and revision have the same job name. */
  ghost predicate SharesJob(h: Hash, jobType: string, repo: string, revision: string, c: string, d: string)
    requires JobNameable(h, jobType, repo, revision) && revision != ""
  {
    && (c, d) != (repo, revision) && d != "" && JobNameable(h, jobType, c, d)
    && JobNameOf(h, jobType, c, d) == JobNameOf(h, jobType, repo, revision)
  }

  /** Exactly when a job name is not unique among those of repositories and revisions: it was
      shortened, or a dash can be read as the separator. */
  lemma JobSharedExactly(h: Hash, jobType: string, repo: string, revision: string)
    requires JobNameable(h, jobType, repo, revision) && revision != ""
    ensures (exists c, d :: SharesJob(h, jobType, repo, revision, c, d)) <==>
            !JobFits(jobType, repo, revision) || '-' in repo || '-' in revision[..|revision| - 1]
  {
    hide JobNameOf, JobNameable;
    if !JobFits(jobType, repo, revision) || '-' in repo || '-' in revision[..|revision| - 1] {
      var _, _ := SharingJob(h, jobType, repo, revision);
    } else if c, d :| SharesJob(h, jobType, repo, revision, c, d) {
      JobNameReads(h, jobType, c, d);
      JobNameReads(h, jobType, repo, revision);
      var (x, z) := JobReadAs(h, jobType, c, d);
      SameJobName(jobType, repo, revision, x, z);
      OnlyInnerDash(repo, revision, x, z);
      assert false;
    }
  }

  lemma SharingJob(h: Hash, jobType: string, repo: string, revision: string) returns (c: string, d: string)
    requires JobNameable(h, jobType, repo, revision) && revision != ""
    requires !JobFits(jobType, repo, revision) || '-' in repo || '-' in revision[..|revision| - 1]
    ensures SharesJob(h, jobType, repo, revision, c, d)
  {
    JobNameReads(h, jobType, repo, revision);
    if !JobFits(jobType, repo, revision) {
      c, d := JobReadAs(h, jobType, repo, revision).0, JobReadAs(h, jobType, repo, revision).1;
    } else if '-' in repo {
      var i :| 0 <= i < |repo| && repo[i] == '-';
      DivideElsewhere("", repo, revision, i);
      c, d := repo[..i], repo[i + 1..] + "-" + revision;
    } else {
      var i :| 0 <= i < |revision| - 1 && revision[..|revision| - 1][i] == '-';
      DivideElsewhere("", repo, revision, i);
      c, d := repo + "-" + revision[..i], revision[i + 1..];
    }
    hide JobLengths, Clip, SixDigitHash, FullName;
    JobNameReads(h, jobType, c, d);
  }

  lemma SameJobName(jobType: string, a: string, b: string, c: string, d: string)
    ensures jobType + "-" + FullName("", a, b) == jobType + "-" + FullName("", c, d) <==> a + "-" + b == c + "-" + d
  {
    var start := jobType + "-";
    assert (start + FullName("", a, b))[|start|..] == a + "-" + b;
    assert (start + FullName("", c, d))[|start|..] == c + "-" + d;
  }

  lemma OnlyInnerDash(a: string, b: string, c: string, d: string)
    requires b != "" && d != "" && '-' !in a && '-' !in b[..|b| - 1] && a + "-" + b == c + "-" + d
    ensures a == c && b == d
  {
    var s, t := a + "-" + b, c + "-" + d;
    assert t[|c|] == '-' && |c| < |s| - 1;
    assert forall k | 0 <= k < |a| :: s[k] == a[k];
    assert forall k | |a| < k < |s| - 1 :: s[k] == b[..|b| - 1][k - |a| - 1];
    assert |c| == |a|;
    assert s[..|a|] == a && t[..|c|] == c && s[|a| + 1..] == b && t[|c| + 1..] == d;
  }

  /** The whole form of a job name: the parts joined by dashes if that fits in 62 characters, else
      both cut and followed by six digits, the leading ones of the hash of both. */
  lemma JobNameForm(h: Hash, jobType: string, repo: string, revision: string)
    returns (cutRepo: string, cutRevision: string, digits: string)
    requires JobNameable(h, jobType, repo, revision) && revision != ""
    ensures var full, name := repo + "-" + revision, JobNameOf(h, jobType, repo, revision);
            if |jobType + "-" + full| <= 62 then name == jobType + "-" + full
            else
              && name == jobType + "-" + cutRepo + "-" + cutRevision + "-" + digits
              && cutRepo <= repo && cutRevision <= revision
              && (cutRepo == repo || |cutRepo| == JobLengths(jobType).0)
              && (cutRevision == revision || |cutRevision| == JobLengths(jobType).1)
              && |digits| == 6 && IsLeading(digits, h(full))
  {
    cutRepo, cutRevision, digits := "", "", "";
    if JobFits(jobType, repo, revision) {
      JobNameCases(h, jobType, repo, revision, "", "");
      assert jobType + "-" + repo + "-" + revision == jobType + "-" + (repo + "-" + revision);
    } else {
      cutRepo, cutRevision := Clip(repo, JobLengths(jobType).0), Clip(revision, JobLengths(jobType).1);
      digits := SixDigitHash(h, repo + "-" + revision);
      LeadingDigits(h, repo + "-" + revision);
      hide IsLeading, SixDigitHash, JobLengths, JobNameOf, JobReadAs;
      JobNameCases(h, jobType, repo, revision, cutRepo, cutRevision);
    }
  }

  /** Without a revision: the repository alone, cut to make room for the six digits of its hash. */
  lemma RepoJobNameForm(h: Hash, jobType: string, repo: string) returns (digits: string)
    requires JobNameable(h, jobType, repo, "")
    ensures var name, room := JobNameOf(h, jobType, repo, ""), 63 - |jobType| - 1;
            if |repo| <= room then name == jobType + "-" + repo
            else name == jobType + "-" + repo[..room - 7] + "-" + digits && |digits| == 6 && IsLeading(digits, h(repo))
  {
    digits := "";
    if |jobType| + 1 + |repo| > JOB_MAX {
      digits := SixDigitHash(h, repo);
      LeadingDigits(h, repo);
    }
    hide IsLeading, SixDigitHash;
  }
}
