/** Compiling engine arguments into a vLLM configuration tree. */
module VllmArgs {
  import opened Common
  import opened ConfigTree
  import opened ConfigHeap
  import opened Text

  /** The library parsers, as total functions from text. */
  datatype Library = Library(
    json: string -> Option<Value>,
    atoi: string -> Option<int>,
    parseFloat: string -> Option<real>)

  type Args = seq<string>

  // ---------------------------------------------------------------- text

  predicate HasPrefix(s: string, t: string) { t <= s }

  predicate HasSuffix(s: string, t: string) { |t| <= |s| && s[|s| - |t|..] == t }

  function TrimPrefix(s: string, t: string): string { if t <= s then s[|t|..] else s }

  function Underscored(s: string): (r: string)
    ensures |r| == |s| && '-' !in r
    ensures forall k | 0 <= k < |s| :: r[k] == if s[k] == '-' then '_' else s[k]
  {
    if s == "" then "" else [if s[0] == '-' then '_' else s[0]] + Underscored(s[1..])
  }

  /** Unicode white space. */
  predicate IsSpace(c: char) {
    || c in {'\t', '\n', '\U{0b}', '\U{0c}', '\r', ' ', '\U{85}', '\U{a0}', '\U{1680}'}
    || '\U{2000}' <= c <= '\U{200a}'
    || c in {'\U{2028}', '\U{2029}', '\U{202f}', '\U{205f}', '\U{3000}'}
  }

  function TrimSpace(s: string): string {
    if s != "" && IsSpace(s[0]) then TrimSpace(s[1..])
    else if s != "" && IsSpace(s[|s| - 1]) then TrimSpace(s[..|s| - 1])
    else s
  }

  predicate LooksLikeJson(s: string) {
    var t := TrimSpace(s);
    (HasPrefix(t, "{") && HasSuffix(t, "}")) || (HasPrefix(t, "[") && HasSuffix(t, "]"))
  }

  function ParseValue(lib: Library, s: string): Value {
    if LooksLikeJson(s) then
      match lib.json(s) case Some(v) => v case None => Leaf(Str(s))
    else match lib.atoi(s)
      case Some(n) => Leaf(Int(n))
      case None =>
        match lib.parseFloat(s)
        case Some(x) => Leaf(Float(x))
        case None => if s == "true" || s == "false" then Leaf(Bool(s == "true")) else Leaf(Str(s))
  }

  // ---------------------------------------------------------------- what one token means

  predicate IsKey(args: Args, i: nat) { i < |args| && "--" <= args[i] }

  /** Token i is the separate value of the key before it. */
  predicate IsSeparateValue(args: Args, i: nat) {
    0 < i < |args| && !IsKey(args, i) && IsKey(args, i - 1) && '=' !in args[i - 1]
  }

  datatype Role = Key | SeparateValue | Skipped

  /** The role of a token, read off the token and its left neighbour alone. */
  function RoleOf(args: Args, i: nat): Role
    requires i < |args|
  {
    if IsKey(args, i) then Key else if IsSeparateValue(args, i) then SeparateValue else Skipped
  }

  predicate IsFlag(args: Args, i: nat)
    requires IsKey(args, i)
  {
    '=' !in args[i] && (i + 1 >= |args| || IsKey(args, i + 1))
  }

  function KeyText(args: Args, i: nat): string
    requires IsKey(args, i)
  {
    Underscored(TrimPrefix(if '=' in args[i] then Cut(args[i], '=').0 else args[i], "--"))
  }

  /** Where a key token assigns.  A flag's key is one literal segment, dots included. */
  function PathOf(args: Args, i: nat): (p: Path)
    requires IsKey(args, i)
    ensures p != []
  {
    if IsFlag(args, i) then [KeyText(args, i)] else Split(KeyText(args, i), '.')
  }

  function ValueText(args: Args, i: nat): string
    requires IsKey(args, i) && !IsFlag(args, i)
  {
    if '=' in args[i] then Cut(args[i], '=').1 else args[i + 1]
  }

  function ValueOf(lib: Library, args: Args, i: nat): Value
    requires IsKey(args, i)
  {
    if IsFlag(args, i) then Leaf(Bool(true)) else ParseValue(lib, ValueText(args, i))
  }

  /** What key token i assigns, as a tree with a single path down to its value. */
  function TreeOf(lib: Library, args: Args, i: nat): (t: Value)
    requires IsKey(args, i)
    ensures t.Map?
  {
    Nest(PathOf(args, i), ValueOf(lib, args, i))
  }

  /** The meaning of the first n tokens: one-path trees merged from left to right. */
  function ConfigOf(lib: Library, args: Args, n: nat): Config
    requires n <= |args|
  {
    if n == 0 then map[]
    else if IsKey(args, n - 1) then
      Merge(ConfigOf(lib, args, n - 1), TreeOf(lib, args, n - 1).m)
    else ConfigOf(lib, args, n - 1)
  }

  // ---------------------------------------------------------------- the compiler loop

  lemma MergeSingle(d: Config, k: string, v: Value)
    ensures MergeValue(Map(d), Nest([k], v)) == Map(d[k := MergedAt(d, k, v)])
  {
  }

  /** One role for each of the first n tokens, in order. */
  function RolesOf(args: Args, n: nat): (roles: seq<Role>)
    requires n <= |args|
    ensures |roles| == n && forall i | 0 <= i < n :: roles[i] == RoleOf(args, i)
  {
    if n == 0 then [] else RolesOf(args, n - 1) + [RoleOf(args, n - 1)]
  }

  lemma ConfigStep(lib: Library, args: Args, i: nat)
    requires IsKey(args, i)
    ensures MergeValue(Map(ConfigOf(lib, args, i)), TreeOf(lib, args, i)) == Map(ConfigOf(lib, args, i + 1))
  {
  }

  // What one turn of the loop adds, whether it consumes one token or two.
  lemma TurnEffect(lib: Library, args: Args, i: nat, next: nat)
    requires IsKey(args, i)
    requires next <= |args| && next == if i + 1 < |args| && IsSeparateValue(args, i + 1) then i + 2 else i + 1
    ensures MergeValue(Map(ConfigOf(lib, args, i)), TreeOf(lib, args, i)) == Map(ConfigOf(lib, args, next))
    ensures !IsSeparateValue(args, next)
  {
    ConfigStep(lib, args, i);
  }

  lemma TurnRoles(args: Args, i: nat, next: nat)
    requires IsKey(args, i)
    requires next <= |args| && next == if i + 1 < |args| && IsSeparateValue(args, i + 1) then i + 2 else i + 1
    ensures RolesOf(args, next) == RolesOf(args, i) + if next == i + 1 then [Key] else [Key, SeparateValue]
  {
  }

  lemma SkipTurn(lib: Library, args: Args, i: nat)
    requires i < |args|
    ensures IsKey(args, i) <==> "--" <= args[i]
    ensures !IsKey(args, i) ==> ConfigOf(lib, args, i + 1) == ConfigOf(lib, args, i) && !IsSeparateValue(args, i + 1)
    ensures !IsKey(args, i) && !IsSeparateValue(args, i) ==> RolesOf(args, i + 1) == RolesOf(args, i) + [Skipped]
  {
  }

  lemma TreeShape(lib: Library, args: Args, i: nat)
    requires IsKey(args, i)
    ensures IsFlag(args, i) ==> TreeOf(lib, args, i) == Nest([KeyText(args, i)], Leaf(Bool(true)))
    ensures !IsFlag(args, i) ==>
              TreeOf(lib, args, i) == Nest(Split(KeyText(args, i), '.'), ParseValue(lib, ValueText(args, i)))
  {
  }

  /** The token loop, with its flag, root-key and dotted branches, computes ConfigOf, keeps the
      tree unshared throughout, and gives every token exactly one role. */
  method ConvertArgsToVLLMConfig(lib: Library, args: Args) returns (config: GoMap, ghost roles: seq<Role>)
    ensures config.Valid() && fresh(config.Repr)
    ensures config.Model == ConfigOf(lib, args, |args|)
    ensures roles == RolesOf(args, |args|)
  {
    config := new GoMap();
    roles := [];
    var i := 0;
    while i < |args|
      invariant 0 <= i <= |args|
      invariant config.Valid() && fresh(config.Repr)
      invariant config.Model == ConfigOf(lib, args, i)
      invariant roles == RolesOf(args, i)
      invariant !IsSeparateValue(args, i)
    {
      hide *;
      SkipTurn(lib, args, i);
      if !("--" <= args[i]) {
        roles := roles + [Skipped];
        i := i + 1;
        continue;
      }
      var key, value, isBool, next := ReadToken(args, i);
      TurnEffect(lib, args, i, next);
      TurnRoles(args, i, next);
      TreeShape(lib, args, i);
      roles := roles + if next == i + 1 then [Key] else [Key, SeparateValue];
      if isBool {
        MergeSingle(config.Model, key, Leaf(Bool(true)));
        config.Put(key, Scalar(Bool(true)));
      } else {
        Assign(config, key, ParseValue(lib, value));
      }
      i := next;
    }
  }

  /** Key, value and the index behind what was read. */
  method ReadToken(args: Args, i: nat) returns (key: string, value: string, isBool: bool, next: nat)
    requires IsKey(args, i)
    ensures key == KeyText(args, i) && isBool == IsFlag(args, i)
    ensures !isBool ==> value == ValueText(args, i)
    ensures next <= |args| && next == if i + 1 < |args| && IsSeparateValue(args, i + 1) then i + 2 else i + 1
  {
    var arg := args[i];
    value, isBool, next := "", false, i + 1;
    if '=' in arg {
      var parts := Cut(arg, '=');
      key, value := TrimPrefix(parts.0, "--"), parts.1;
    } else {
      key := TrimPrefix(arg, "--");
      if i + 1 >= |args| || "--" <= args[i + 1] {
        isBool := true;
      } else {
        value := args[i + 1];
        next := i + 2;
      }
    }
    key := Underscored(key);
  }

  /** The two valued branches of the loop: a dotted key merges a nested map, a root key has a
      merge test of its own. */
  method Assign(config: GoMap, key: string, value: Value)
    requires config.Valid()
    modifies config.Repr
    ensures config.Valid() && fresh(config.Repr - old(config.Repr))
    ensures Map(config.Model) == MergeValue(Map(old(config.Model)), Nest(Split(key, '.'), value))
  {
    var parsed := Allocate(value);
    if '.' in key {
      var keys := Split(key, '.');
      var nested := CreateNestedMap(keys, parsed);
      RecursiveMerge(config, nested);
    } else {
      assert Split(key, '.') == [key];
      MergeSingle(config.Model, key, value);
      if key in config.entries && config.entries[key].Sub? {
        if parsed.Sub? {
          config.MergeChild(key, parsed.node);
        } else {
          config.Put(key, parsed);
        }
      } else {
        config.Put(key, parsed);
      }
    }
  }

  // ---------------------------------------------------------------- last writer wins

  /** Key token i assigns nothing at, above or below p: neither its path, nor any leaf of a
      JSON value it carries, is comparable with p. */
  ghost predicate LeavesAlone(lib: Library, args: Args, i: nat, p: Path)
    requires IsKey(args, i)
  {
    forall q: Path :: Assigns(ValueOf(lib, args, i), q) ==> !Comparable(p, PathOf(args, i) + q)
  }

  /** Frame: a token that leaves p alone does not change what the configuration holds at p. */
  lemma TokenFrame(lib: Library, args: Args, i: nat, p: Path)
    requires i < |args| && p != []
    requires IsKey(args, i) ==> LeavesAlone(lib, args, i, p)
    ensures Lookup(Map(ConfigOf(lib, args, i + 1)), p) == Lookup(Map(ConfigOf(lib, args, i)), p)
  {
    if IsKey(args, i) {
      var path, v, tree := PathOf(args, i), ValueOf(lib, args, i), TreeOf(lib, args, i);
      forall q: Path | Assigns(tree, q) ensures !Comparable(p, q) {
        NestAssigns(path, v, q);
        assert q == path + q[|path|..];
      }
      ConfigStep(lib, args, i);
      MergeFrame(Map(ConfigOf(lib, args, i)), tree, p);
    }
  }

  lemma TokenWrites(lib: Library, args: Args, i: nat, q: Path)
    requires IsKey(args, i)
    requires Lookup(ValueOf(lib, args, i), q).Some? && Lookup(ValueOf(lib, args, i), q).value.Leaf?
    ensures Lookup(Map(ConfigOf(lib, args, i + 1)), PathOf(args, i) + q) == Lookup(ValueOf(lib, args, i), q)
  {
    var tree := TreeOf(lib, args, i);
    LookupNest(PathOf(args, i), ValueOf(lib, args, i));
    LookupSplit(tree, PathOf(args, i), q);
    MergeWrites(Map(ConfigOf(lib, args, i)), tree, PathOf(args, i) + q);
    ConfigStep(lib, args, i);
  }

  ghost predicate LaterLeaveAlone(lib: Library, args: Args, i: nat, n: nat, p: Path)
    requires n <= |args|
  {
    forall j | i < j < n && IsKey(args, j) :: LeavesAlone(lib, args, j, p)
  }

  lemma LaterLess(lib: Library, args: Args, i: nat, n: nat, p: Path)
    requires i + 1 < n <= |args| && LaterLeaveAlone(lib, args, i, n, p)
    ensures LaterLeaveAlone(lib, args, i, n - 1, p)
    ensures IsKey(args, n - 1) ==> LeavesAlone(lib, args, n - 1, p)
  {
  }

  /** A scalar assigned at p, directly or inside a JSON value, is in the final configuration
      if every later key token leaves p alone. */
  lemma {:induction false} LastWriterWins(lib: Library, args: Args, i: nat, q: Path, n: nat)
    requires i < n <= |args| && IsKey(args, i)
    requires Lookup(ValueOf(lib, args, i), q).Some? && Lookup(ValueOf(lib, args, i), q).value.Leaf?
    requires LaterLeaveAlone(lib, args, i, n, PathOf(args, i) + q)
    ensures Lookup(Map(ConfigOf(lib, args, n)), PathOf(args, i) + q) == Lookup(ValueOf(lib, args, i), q)
    decreases n
  {
    hide *;
    if n == i + 1 {
      TokenWrites(lib, args, i, q);
    } else {
      LaterLess(lib, args, i, n, PathOf(args, i) + q);
      LastWriterWins(lib, args, i, q, n - 1);
      TokenFrame(lib, args, n - 1, PathOf(args, i) + q);
    }
  }

  // ---------------------------------------------------------------- what an argument means

  /** The text is enclosed in braces or in brackets at i and j, and beyond them is only white space. */
  predicate Encloses(s: string, i: nat, j: nat) {
    && i < j < |s| && ((s[i] == '{' && s[j] == '}') || (s[i] == '[' && s[j] == ']'))
    && (forall k | 0 <= k < i :: IsSpace(s[k])) && forall k | j < k < |s| :: IsSpace(s[k])
  }

  ghost predicate Bracketed(s: string) { exists i: nat, j: nat :: Encloses(s, i, j) }

  lemma NoSpaces()
    ensures !IsSpace('{') && !IsSpace('}') && !IsSpace('[') && !IsSpace(']')
  {
  }

  /** From i to j is what trimming leaves: around it is only white space, and it has none at its ends. */
  predicate Core(s: string, t: string, i: nat, j: nat) {
    && i <= j <= |s| && |t| == j - i && (forall k | 0 <= k < |t| :: t[k] == s[i + k])
    && (i < j ==> !IsSpace(s[i]) && !IsSpace(s[j - 1]))
    && (forall k | 0 <= k < i :: IsSpace(s[k])) && forall k | j <= k < |s| :: IsSpace(s[k])
  }

  lemma {:induction false} Trimmed(s: string) returns (i: nat, j: nat)
    ensures Core(s, TrimSpace(s), i, j)
    decreases |s|
  {
    hide IsSpace;
    if s != "" && IsSpace(s[0]) {
      var t := s[1..];
      i, j := Trimmed(t);
      assert forall k | 0 < k < |s| :: s[k] == t[k - 1];
      i, j := i + 1, j + 1;
    } else if s != "" && IsSpace(s[|s| - 1]) {
      var t := s[..|s| - 1];
      i, j := Trimmed(t);
      assert forall k | 0 <= k < |t| :: s[k] == t[k];
    } else {
      i, j := 0, |s|;
    }
  }

  /** JSON is tried exactly for texts that are bracketed once the white space around them is left
      aside; among ASCII characters that is blank and tab through carriage return. */
  lemma JsonSyntax(s: string)
    ensures LooksLikeJson(s) <==> Bracketed(s)
    ensures forall c: char | c as nat < 128 :: IsSpace(c) <==> 9 <= c as nat <= 13 || c as nat == 32
  {
    forall c: char | c as nat < 128 ensures IsSpace(c) <==> 9 <= c as nat <= 13 || c as nat == 32 {
    }
    hide IsSpace, TrimSpace, LooksLikeJson, Encloses, Core;
    var i, j := Trimmed(s);
    var t := TrimSpace(s);
    LooksTrimmed(s, t);
    if LooksLikeJson(s) {
      CoreEncloses(s, t, i, j);
    }
    if a: nat, b: nat :| Encloses(s, a, b) {
      SameEnds(s, t, i, j, a, b);
    }
  }

  lemma StartsWith(t: string, p: string)
    requires |p| == 1
    ensures HasPrefix(t, p) <==> t != "" && t[0] == p[0]
  {
  }

  lemma EndsWith(t: string, p: string)
    requires |p| == 1
    ensures HasSuffix(t, p) <==> t != "" && t[|t| - 1] == p[0]
  {
    assert p == [p[0]];
    if t != "" {
      assert t[|t| - 1..] == [t[|t| - 1]];
    }
  }

  lemma Enclosed(t: string)
    ensures (HasPrefix(t, "{") && HasSuffix(t, "}")) || (HasPrefix(t, "[") && HasSuffix(t, "]")) <==>
            |t| > 1 && ((t[0] == '{' && t[|t| - 1] == '}') || (t[0] == '[' && t[|t| - 1] == ']'))
  {
    hide HasPrefix, HasSuffix;
    StartsWith(t, "{");
    StartsWith(t, "[");
    EndsWith(t, "}");
    EndsWith(t, "]");
  }

  lemma LooksTrimmed(s: string, t: string)
    requires t == TrimSpace(s)
    ensures LooksLikeJson(s) <==> |t| > 1 && ((t[0] == '{' && t[|t| - 1] == '}') || (t[0] == '[' && t[|t| - 1] == ']'))
  {
    hide TrimSpace, HasPrefix, HasSuffix, IsSpace;
    Enclosed(t);
  }

  lemma CoreEncloses(s: string, t: string, i: nat, j: nat)
    requires Core(s, t, i, j)
    requires |t| > 1 && ((t[0] == '{' && t[|t| - 1] == '}') || (t[0] == '[' && t[|t| - 1] == ']'))
    ensures j > 0 && Encloses(s, i, j - 1)
  {
    hide IsSpace;
  }

  // The enclosing characters are where trimming stops.
  lemma SameEnds(s: string, t: string, i: nat, j: nat, a: nat, b: nat)
    requires Core(s, t, i, j) && Encloses(s, a, b)
    ensures |t| > 1 && ((t[0] == '{' && t[|t| - 1] == '}') || (t[0] == '[' && t[|t| - 1] == ']'))
  {
    hide IsSpace;
    NoSpaces();
    assert i <= a && b < j;
    assert a <= i && j <= b + 1;
  }

  /** What the text of a value stands for: JSON if it is bracketed and parses, else its own text; an
      integer, else a number, else a truth value, else its own text if it is not bracketed. */
  ghost predicate Means(lib: Library, text: string, v: Value) {
    && (Bracketed(text) && lib.json(text).Some? ==> v == lib.json(text).value)
    && (Bracketed(text) && lib.json(text).None? ==> v == Leaf(Str(text)))
    && (!Bracketed(text) && lib.atoi(text).Some? ==> v == Leaf(Int(lib.atoi(text).value)))
    && (!Bracketed(text) && lib.atoi(text).None? ==>
          && (lib.parseFloat(text).Some? ==> v == Leaf(Float(lib.parseFloat(text).value)))
          && (lib.parseFloat(text).None? ==>
                && (text == "true" ==> v == Leaf(Bool(true))) && (text == "false" ==> v == Leaf(Bool(false)))
                && (text != "true" && text != "false" ==> v == Leaf(Str(text)))))
  }

  /** Token i, with the next one if need be, is the argument --key=text or --key text. */
  predicate Valued(args: Args, i: nat, key: string, text: string) {
    && i < |args| && '=' !in key
    && (|| args[i] == "--" + key + "=" + text
        || (args[i] == "--" + key && i + 1 < |args| && !("--" <= args[i + 1]) && text == args[i + 1]))
  }

  lemma ValuedToken(lib: Library, args: Args, i: nat, key: string, text: string)
    requires Valued(args, i, key, text)
    ensures IsKey(args, i) && PathOf(args, i) == Split(Underscored(key), '.') && Means(lib, text, ValueOf(lib, args, i))
  {
    hide Bracketed, LooksLikeJson, Split, Cut;
    JsonSyntax(text);
    assert "--" + key == "--" + key && ("--" + key)[2..] == key;
    if args[i] == "--" + key + "=" + text {
      assert args[i] == ("--" + key) + ['='] + text;
      CutAt("--" + key, text, '=');
    }
  }

  lemma FlagToken(lib: Library, args: Args, i: nat, key: string)
    requires i < |args| && args[i] == "--" + key && '=' !in key && (i + 1 == |args| || "--" <= args[i + 1])
    ensures IsKey(args, i) && PathOf(args, i) == [Underscored(key)] && ValueOf(lib, args, i) == Leaf(Bool(true))
  {
    assert ("--" + key)[2..] == key;
  }

  /** No later argument assigns at, above or below the path. */
  predicate LastAt(args: Args, i: nat, path: Path) {
    forall j | i < j < |args| && IsKey(args, j) :: !Comparable(path, PathOf(args, j))
  }

  lemma LastAtOne(args: Args, i: nat, path: Path, j: nat)
    requires LastAt(args, i, path) && i < j < |args|
    ensures IsKey(args, j) ==> !Comparable(path, PathOf(args, j))
  {
  }

  lemma {:induction false} KeptToEnd(lib: Library, args: Args, i: nat, path: Path, n: nat)
    requires i < n <= |args| && path != [] && LastAt(args, i, path)
    ensures Lookup(Map(ConfigOf(lib, args, n)), path) == Lookup(Map(ConfigOf(lib, args, i + 1)), path)
    decreases n
  {
    hide *;
    if n > i + 1 {
      KeptToEnd(lib, args, i, path, n - 1);
      LastAtOne(args, i, path, n - 1);
      if IsKey(args, n - 1) {
        FarAway(lib, args, n - 1, path);
      }
      TokenFrame(lib, args, n - 1, path);
    }
  }

  lemma ComparableStart(p: Path, other: Path, q: Path)
    requires Comparable(p, other + q)
    ensures Comparable(p, other)
  {
    var whole := other + q;
    assert whole[..|other|] == other;
    if p <= whole && |p| <= |other| {
      assert p == whole[..|p|] == other[..|p|];
    } else {
      assert p[..|other|] == whole[..|other|];
    }
  }

  lemma FarAway(lib: Library, args: Args, j: nat, path: Path)
    requires IsKey(args, j) && !Comparable(path, PathOf(args, j))
    ensures LeavesAlone(lib, args, j, path)
  {
    hide Comparable, PathOf;
    forall q: Path | Assigns(ValueOf(lib, args, j), q) ensures !Comparable(path, PathOf(args, j) + q) {
      if Comparable(path, PathOf(args, j) + q) {
        ComparableStart(path, PathOf(args, j), q);
      }
    }
  }

  /** What an argument leaves in the configuration when no later one touches its path: what its text
      means, merged into the map that earlier arguments may have left there if it is a map too. */
  lemma ArgumentHolds(lib: Library, args: Args, i: nat, key: string, text: string) returns (v: Value)
    requires Valued(args, i, key, text) && LastAt(args, i, Split(Underscored(key), '.'))
    ensures Means(lib, text, v)
    ensures var path := Split(Underscored(key), '.');
            Lookup(Map(ConfigOf(lib, args, |args|)), path) ==
            match Lookup(Map(ConfigOf(lib, args, i)), path)
            case Some(d) => Some(MergeValue(d, v))
            case None => Some(v)
  {
    hide Means, Split, ConfigOf, MergeValue;
    ValuedToken(lib, args, i, key, text);
    v := ValueOf(lib, args, i);
    HoldsNext(lib, args, i);
    KeptToEnd(lib, args, i, Split(Underscored(key), '.'), |args|);
  }

  /** And a flag leaves true under its key, dots and all. */
  lemma FlagHolds(lib: Library, args: Args, i: nat, key: string)
    requires i < |args| && args[i] == "--" + key && '=' !in key && (i + 1 == |args| || "--" <= args[i + 1])
    requires LastAt(args, i, [Underscored(key)])
    ensures Lookup(Map(ConfigOf(lib, args, |args|)), [Underscored(key)]) == Some(Leaf(Bool(true)))
  {
    hide Split, ConfigOf;
    FlagToken(lib, args, i, key);
    HoldsNext(lib, args, i);
    KeptToEnd(lib, args, i, [Underscored(key)], |args|);
  }

  lemma HoldsNext(lib: Library, args: Args, i: nat)
    requires IsKey(args, i)
    ensures Lookup(Map(ConfigOf(lib, args, i + 1)), PathOf(args, i)) ==
            match Lookup(Map(ConfigOf(lib, args, i)), PathOf(args, i))
            case Some(d) => Some(MergeValue(d, ValueOf(lib, args, i)))
            case None => Some(ValueOf(lib, args, i))
  {
    hide ConfigOf, PathOf, ValueOf;
    ConfigStep(lib, args, i);
    MergeAtPath(Map(ConfigOf(lib, args, i)), PathOf(args, i), ValueOf(lib, args, i));
  }

  // A one-path tree is merged at the end of its path.
  lemma {:induction false} MergeAtPath(d: Value, path: Path, v: Value)
    ensures Lookup(MergeValue(d, Nest(path, v)), path) ==
            match Lookup(d, path) case Some(x) => Some(MergeValue(x, v)) case None => Some(v)
    decreases path
  {
    if path != [] {
      var child := Nest(path[1..], v);
      assert Nest(path, v) == Map(map[path[0] := child]);
      if d.Map? && path[0] in d.m {
        MergeAtPath(d.m[path[0]], path[1..], v);
      } else {
        LookupNest(path[1..], v);
      }
    }
  }

  function RootSegments(args: Args, n: nat): set<string>
    requires n <= |args|
  {
    set i | 0 <= i < n && IsKey(args, i) :: PathOf(args, i)[0]
  }

  lemma RootSegmentsStep(args: Args, n: nat)
    requires n < |args|
    ensures RootSegments(args, n + 1) ==
            RootSegments(args, n) + if IsKey(args, n) then {PathOf(args, n)[0]} else {}
  {
  }

  lemma ConfigKeysStep(lib: Library, args: Args, i: nat)
    requires i < |args|
    ensures ConfigOf(lib, args, i + 1).Keys ==
            ConfigOf(lib, args, i).Keys + if IsKey(args, i) then {PathOf(args, i)[0]} else {}
  {
  }

  /** The root keys of the configuration are exactly the first segments of the key tokens. */
  lemma {:induction false} RootKeys(lib: Library, args: Args, n: nat)
    requires n <= |args|
    ensures ConfigOf(lib, args, n).Keys == RootSegments(args, n)
  {
    var keys: set<string> := {};
    for i := 0 to n
      invariant ConfigOf(lib, args, i).Keys == keys == RootSegments(args, i)
    {
      RootSegmentsStep(args, i);
      ConfigKeysStep(lib, args, i);
      keys := ConfigOf(lib, args, i + 1).Keys;
    }
  }

  // ---------------------------------------------------------------- defaults

  const TRUST_REMOTE_CODE := "trust_remote_code"

  function HardwareDefaults(requestGPU: bool, gpuCount: int): Config {
    if requestGPU then
      var c: Config := map["dtype" := Leaf(Str("auto"))]["gpu_memory_utilization" := Leaf(Float(0.9))];
      if gpuCount > 1 then c["tensor_parallel_size" := Leaf(Int(gpuCount))] else c
    else
      map["dtype" := Leaf(Str("half"))]["max_num_batched_tokens" := Leaf(Int(2048))]
      ["max_model_len" := Leaf(Int(2048))]["enforce_eager" := Leaf(Bool(true))]
  }

  function Defaults(modelId: string, revision: string, requestGPU: bool, gpuCount: int): Config {
    var c := HardwareDefaults(requestGPU, gpuCount)["model" := Leaf(Str(modelId))];
    var d := if revision != "" then c["revision" := Leaf(Str(revision))] else c;
    d[TRUST_REMOTE_CODE := Leaf(Bool(false))]
  }

  method PutHardwareDefaults(config: GoMap, requestGPU: bool, gpuCount: int)
    requires config.Valid() && config.Model == map[]
    modifies config
    ensures config.Valid() && config.Repr == old(config.Repr)
    ensures config.Model == HardwareDefaults(requestGPU, gpuCount)
  {
    if requestGPU {
      config.PutScalar("dtype", Str("auto"));
      config.PutScalar("gpu_memory_utilization", Float(0.9));
      if gpuCount > 1 {
        config.PutScalar("tensor_parallel_size", Int(gpuCount));
      }
    } else {
      config.PutScalar("dtype", Str("half"));
      config.PutScalar("max_num_batched_tokens", Int(2048));
      config.PutScalar("max_model_len", Int(2048));
      config.PutScalar("enforce_eager", Bool(true));
    }
  }

  method PutDefaults(config: GoMap, modelId: string, revision: string, requestGPU: bool, gpuCount: int)
    requires config.Valid() && config.Model == map[]
    modifies config
    ensures config.Valid() && config.Repr == old(config.Repr)
    ensures config.Model == Defaults(modelId, revision, requestGPU, gpuCount)
  {
    PutHardwareDefaults(config, requestGPU, gpuCount);
    config.PutScalar("model", Str(modelId));
    if revision != "" {
      config.PutScalar("revision", Str(revision));
    }
    config.PutScalar(TRUST_REMOTE_CODE, Bool(false));
  }

  // d with the entries of s that are not in todo put over it.
  ghost function OverrideBut(d: Config, s: Config, todo: set<string>): Config {
    d + (map k | k in s.Keys - todo :: s[k])
  }

  lemma OverrideButAll(d: Config, s: Config)
    ensures OverrideBut(d, s, s.Keys) == d && OverrideBut(d, s, {}) == d + s
  {
  }

  lemma OverrideButOne(d: Config, s: Config, todo: set<string>, k: string)
    requires k in todo && todo <= s.Keys
    ensures OverrideBut(d, s, todo - {k}) == OverrideBut(d, s, todo)[k := s[k]]
  {
  }

  /** dst[k] = v for every entry of src, in any order: a shallow override. */
  method OverrideAll(dst: GoMap, src: GoMap)
    requires dst.Valid() && src.Valid() && dst.Repr !! src.Repr
    modifies dst
    ensures dst.Valid() && dst.Model == old(dst.Model) + src.Model
    ensures dst.Repr <= old(dst.Repr) + src.Repr
  {
    hide OverrideBut;
    ghost var owned := Holdings(src);
    OverrideButAll(dst.Model, src.Model);
    var todo := src.entries.Keys;
    while todo != {}
      invariant todo <= owned.Keys
      invariant unchanged(src) && unchanged(src.Repr)
      invariant dst.Valid() && dst.Repr <= old(dst.Repr) + src.Repr
      invariant Apart(owned, todo, dst.Repr)
      invariant dst.Model == OverrideBut(old(dst.Model), src.Model, todo)
      decreases todo
    {
      var k :| k in todo;
      ghost var before := dst.Repr;
      OverrideButOne(old(dst.Model), src.Model, todo, k);
      dst.Put(k, src.entries[k]);
      ApartStep(owned, todo, k, before, dst.Repr);
      todo := todo - {k};
    }
  }

  method BuildVLLMConfig(lib: Library, modelId: string, revision: string, requestGPU: bool, gpuCount: int, userArgs: Args)
    returns (config: GoMap)
    ensures config.Valid() && fresh(config.Repr)
    ensures config.Model ==
            Defaults(modelId, revision, requestGPU, gpuCount) + ConfigOf(lib, userArgs, |userArgs|)
  {
    config := new GoMap();
    PutDefaults(config, modelId, revision, requestGPU, gpuCount);
    if |userArgs| > 0 {
      var userConfig, _ := ConvertArgsToVLLMConfig(lib, userArgs);
      OverrideAll(config, userConfig);
    }
  }

  /** Key token i assigns at or below root key k. */
  predicate TokenNames(args: Args, i: nat, k: string) { IsKey(args, i) && PathOf(args, i)[0] == k }

  /** The last of the first n tokens that names k assigns the scalar to k itself. */
  predicate LastSets(lib: Library, args: Args, n: nat, k: string, value: Value) {
    exists i | 0 <= i < n ::
      && TokenNames(args, i, k) && PathOf(args, i) == [k] && ValueOf(lib, args, i) == value
      && forall j | i < j < n :: !TokenNames(args, j, k)
  }

  // What one merge of a one-path tree leaves at a root key.
  lemma RootAfterMerge(d: Config, path: Path, v: Value, k: string, leaf: Value)
    requires path != [] && leaf.Leaf?
    ensures var c := Merge(d, Nest(path, v).m);
            (k in c && c[k] == leaf) <==> if path[0] == k then path == [k] && v == leaf else k in d && d[k] == leaf
  {
    var child := Nest(path[1..], v);
    assert Nest(path, v).m == map[path[0] := child];
    if path[0] == k && path != [k] {
      assert path[1..] != [] && child.Map?;
    }
  }

  lemma LastSetsNext(lib: Library, args: Args, n: nat, k: string, value: Value)
    requires n < |args|
    ensures LastSets(lib, args, n + 1, k, value) <==>
            if TokenNames(args, n, k) then PathOf(args, n) == [k] && ValueOf(lib, args, n) == value
            else LastSets(lib, args, n, k, value)
  {
    hide PathOf, ValueOf, TokenNames;
  }

  /** A scalar is the configuration's value at a root key exactly if the last token that names the
      key assigns it to the key itself. */
  lemma {:induction false} RootScalar(lib: Library, args: Args, n: nat, k: string, value: Value)
    requires n <= |args| && value.Leaf?
    ensures var c := ConfigOf(lib, args, n); (k in c && c[k] == value) <==> LastSets(lib, args, n, k, value)
  {
    hide PathOf, ValueOf, LastSets, Merge, Nest;
    if n > 0 {
      RootScalar(lib, args, n - 1, k, value);
      LastSetsNext(lib, args, n - 1, k, value);
      if IsKey(args, n - 1) {
        RootAfterMerge(ConfigOf(lib, args, n - 1), PathOf(args, n - 1), ValueOf(lib, args, n - 1), k, value);
      }
    } else {
      NothingSet(lib, args, k, value);
    }
  }

  lemma RootNamed(args: Args, n: nat, k: string)
    requires n <= |args|
    ensures k in RootSegments(args, n) <==> exists i | 0 <= i < n :: TokenNames(args, i, k)
  {
    hide PathOf;
    if k in RootSegments(args, n) {
      var i :| 0 <= i < n && IsKey(args, i) && PathOf(args, i)[0] == k;
      assert TokenNames(args, i, k);
    }
    if i :| 0 <= i < n && TokenNames(args, i, k) {
      assert IsKey(args, i) && PathOf(args, i)[0] == k;
    }
  }

  lemma NothingSet(lib: Library, args: Args, k: string, value: Value)
    ensures !LastSets(lib, args, 0, k, value)
  {
  }

  /** Code execution stays off exactly when no argument names trust_remote_code at the root, or the
      last one that does sets the key itself to false: user arguments override this default like
      any other. */
  lemma TrustRemoteCode(lib: Library, modelId: string, revision: string, requestGPU: bool, gpuCount: int, userArgs: Args)
    ensures var n := |userArgs|;
            var built := Defaults(modelId, revision, requestGPU, gpuCount) + ConfigOf(lib, userArgs, n);
            built[TRUST_REMOTE_CODE] == Leaf(Bool(false)) <==>
            || (forall i | 0 <= i < n :: !TokenNames(userArgs, i, TRUST_REMOTE_CODE))
            || LastSets(lib, userArgs, n, TRUST_REMOTE_CODE, Leaf(Bool(false)))
  {
    hide ConfigOf, LastSets, TokenNames;
    RootKeys(lib, userArgs, |userArgs|);
    RootNamed(userArgs, |userArgs|, TRUST_REMOTE_CODE);
    RootScalar(lib, userArgs, |userArgs|, TRUST_REMOTE_CODE, Leaf(Bool(false)));
  }

  /** What the configuration holds under key k by default: these keys and no others. */
  predicate DefaultAt(held: Option<Value>, modelId: string, revision: string, requestGPU: bool, gpuCount: int, k: string) {
    && (k == "model" ==> held == Some(Leaf(Str(modelId))))
    && (k == "revision" ==> held == if revision == "" then None else Some(Leaf(Str(revision))))
    && (k == "trust_remote_code" ==> held == Some(Leaf(Bool(false))))
    && (k !in ["model", "revision", "trust_remote_code"] ==> HardwareAt(held, requestGPU, gpuCount, k))
  }

  predicate HardwareAt(held: Option<Value>, requestGPU: bool, gpuCount: int, k: string) {
    && (k == "dtype" ==> held == Some(Leaf(Str(if requestGPU then "auto" else "half"))))
    && (k == "gpu_memory_utilization" ==> held == if requestGPU then Some(Leaf(Float(0.9))) else None)
    && (k == "tensor_parallel_size" ==> held == if requestGPU && gpuCount > 1 then Some(Leaf(Int(gpuCount))) else None)
    && (k == "max_num_batched_tokens" ==> held == if requestGPU then None else Some(Leaf(Int(2048))))
    && (k == "max_model_len" ==> held == if requestGPU then None else Some(Leaf(Int(2048))))
    && (k == "enforce_eager" ==> held == if requestGPU then None else Some(Leaf(Bool(true))))
    && (held.Some? ==> k in ["dtype", "gpu_memory_utilization", "tensor_parallel_size", "max_num_batched_tokens",
                             "max_model_len", "enforce_eager"])
  }

  function At(c: Config, k: string): Option<Value> { if k in c then Some(c[k]) else None }

  lemma HardwareHolds(requestGPU: bool, gpuCount: int, k: string)
    ensures HardwareAt(At(HardwareDefaults(requestGPU, gpuCount), k), requestGPU, gpuCount, k)
  {
  }

  lemma OnlyDefaults(modelId: string, revision: string, requestGPU: bool, gpuCount: int, k: string)
    ensures DefaultAt(At(Defaults(modelId, revision, requestGPU, gpuCount), k), modelId, revision, requestGPU, gpuCount, k)
  {
    HardwareHolds(requestGPU, gpuCount, k);
    hide HardwareDefaults, HardwareAt;
  }

  lemma AtSum(c: Config, d: Config, k: string)
    ensures At(c + d, k) == if k in d then Some(d[k]) else At(c, k)
  {
  }

  /** Under a key that no argument names, the configuration holds the default; under any other, what
      the arguments mean. */
  lemma DefaultsHold(lib: Library, modelId: string, revision: string, requestGPU: bool, gpuCount: int, userArgs: Args, k: string)
    ensures var built := Defaults(modelId, revision, requestGPU, gpuCount) + ConfigOf(lib, userArgs, |userArgs|);
            if exists i | 0 <= i < |userArgs| :: TokenNames(userArgs, i, k)
            then At(built, k) == Lookup(Map(ConfigOf(lib, userArgs, |userArgs|)), [k])
            else DefaultAt(At(built, k), modelId, revision, requestGPU, gpuCount, k)
  {
    hide ConfigOf, TokenNames, Defaults, DefaultAt, At;
    RootKeys(lib, userArgs, |userArgs|);
    RootNamed(userArgs, |userArgs|, k);
    AtSum(Defaults(modelId, revision, requestGPU, gpuCount), ConfigOf(lib, userArgs, |userArgs|), k);
    OnlyDefaults(modelId, revision, requestGPU, gpuCount, k);
  }

  const TRUST_FLAG: Args := ["--trust-remote-code"]

  lemma TrustFlagPath()
    ensures IsKey(TRUST_FLAG, 0) && IsFlag(TRUST_FLAG, 0) && PathOf(TRUST_FLAG, 0) == [TRUST_REMOTE_CODE]
  {
    var raw := TRUST_FLAG[0][2..];
    assert "--" <= TRUST_FLAG[0] && '=' !in TRUST_FLAG[0];
    assert |raw| == |TRUST_REMOTE_CODE| == 17;
    UnderscoredIsPointwise(raw, TRUST_REMOTE_CODE);
  }

  /** The documentation says the setting is always off; one flag turns it on. */
  lemma TrustRemoteCodeOverridden(lib: Library)
    ensures Lookup(Map(ConfigOf(lib, TRUST_FLAG, 1)), [TRUST_REMOTE_CODE]) == Some(Leaf(Bool(true)))
  {
    TrustFlagPath();
    TokenWrites(lib, TRUST_FLAG, 0, []);
    assert [TRUST_REMOTE_CODE] + [] == [TRUST_REMOTE_CODE];
  }

  lemma {:induction false} UnderscoredIsPointwise(s: string, r: string)
    requires |r| == |s| && forall k | 0 <= k < |s| :: r[k] == if s[k] == '-' then '_' else s[k]
    ensures Underscored(s) == r
  {
    if s != "" {
      UnderscoredIsPointwise(s[1..], r[1..]);
    }
  }
}
