/**
 The laws the handoff theorems ask of the host are consistent: a host is built that obeys all of
 them. Its JSON text is a prefix-free code in unary, which is enough to be read back; the reader
 is defined as the inverse. The host also resolves a stripped path to another file.
 */
module HandoffHost {
  import opened PyJson
  import opened PyText
  import opened Wrappers
  import opened HandoffFiles
  import opened HandoffVerify
  import opened HandoffBuild

  function Unary(n: nat): Bytes {
    if n == 0 then [0] else [1] + Unary(n - 1)
  }

  function Chars(s: string): Bytes {
    if s == "" then [] else Unary(s[0] as nat) + Chars(s[1..])
  }

  function Text(s: string): Bytes {
    Unary(|s|) + Chars(s)
  }

  ghost predicate ListsKeys(ks: seq<string>, keys: set<string>) {
    forall k :: k in ks <==> k in keys
  }

  lemma {:induction false} ListingExists(keys: set<string>) returns (ks: seq<string>)
    ensures ListsKeys(ks, keys)
    decreases |keys|
  {
    if keys == {} {
      ks := [];
    } else {
      var k :| k in keys;
      var rest := ListingExists(keys - {k});
      ks := [k] + rest;
    }
  }

  /** Some listing of an object's keys. */
  ghost function Listing(keys: set<string>): (ks: seq<string>)
    ensures ListsKeys(ks, keys)
  {
    assert exists ks :: ListsKeys(ks, keys) by { var ks := ListingExists(keys); }
    var ks :| ListsKeys(ks, keys);
    ks
  }

  ghost function Code(j: Json): Bytes
    decreases j, 1, 0
  {
    match j
    case Null => [0]
    case Bool(b) => [1, if b then 1 else 0]
    case Int(n) => if n < 0 then [2, 1] + Unary(-n) else [2, 0] + Unary(n)
    case Float(_) => [3]
    case Str(s) => [4] + Text(s)
    case List(items) => [5] + (Unary(|items|) + Items(j, 0))
    case Obj(f) => [6] + (Unary(|Listing(f.Keys)|) + Pairs(j, Listing(f.Keys), 0))
  }

  ghost function Items(j: Json, i: nat): Bytes
    requires j.List? && i <= |j.items|
    decreases j, 0, |j.items| - i
  {
    if i == |j.items| then [] else Code(j.items[i]) + Items(j, i + 1)
  }

  ghost function Pairs(j: Json, ks: seq<string>, i: nat): Bytes
    requires j.Obj? && i <= |ks| && forall k | k in ks :: k in j.fields
    decreases j, 0, |ks| - i
  {
    if i == |ks| then [] else Text(ks[i]) + (Code(j.fields[ks[i]]) + Pairs(j, ks, i + 1))
  }

  // ------------------------------------------------------- the code is prefix-free

  lemma Shift<T>(a: seq<T>, b: seq<T>, c: seq<T>)
    ensures a + b + c == a + (b + c)
  {
  }

  lemma Drop<T>(a: seq<T>, x: seq<T>, y: seq<T>)
    requires a + x == a + y
    ensures x == y
  {
    assert (a + x)[|a|..] == x && (a + y)[|a|..] == y;
  }

  lemma {:induction false} UnarySplits(a: nat, b: nat, x: Bytes, y: Bytes)
    requires Unary(a) + x == Unary(b) + y
    ensures a == b && x == y
  {
    assert (Unary(a) + x)[0] == (if a == 0 then 0 else 1) && (Unary(b) + y)[0] == (if b == 0 then 0 else 1);
    if a == 0 {
      Drop([0], x, y);
    } else {
      Shift([1], Unary(a - 1), x);
      Shift([1], Unary(b - 1), y);
      Drop([1], Unary(a - 1) + x, Unary(b - 1) + y);
      UnarySplits(a - 1, b - 1, x, y);
    }
  }

  lemma {:induction false} CharsSplit(s: string, t: string, x: Bytes, y: Bytes)
    requires |s| == |t| && Chars(s) + x == Chars(t) + y
    ensures s == t && x == y
  {
    hide Unary;
    if s == "" {
      assert Chars(s) + x == x && Chars(t) + y == y;
    } else {
      Shift(Unary(s[0] as nat), Chars(s[1..]), x);
      Shift(Unary(t[0] as nat), Chars(t[1..]), y);
      UnarySplits(s[0] as nat, t[0] as nat, Chars(s[1..]) + x, Chars(t[1..]) + y);
      CharsSplit(s[1..], t[1..], x, y);
      assert s == [s[0]] + s[1..] && t == [t[0]] + t[1..];
    }
  }

  lemma {:induction false} TextSplits(s: string, t: string, x: Bytes, y: Bytes)
    requires Text(s) + x == Text(t) + y
    ensures s == t && x == y
  {
    hide Unary, Chars;
    Shift(Unary(|s|), Chars(s), x);
    Shift(Unary(|t|), Chars(t), y);
    UnarySplits(|s|, |t|, Chars(s) + x, Chars(t) + y);
    CharsSplit(s, t, x, y);
  }

  function Kind(j: Json): bv8 {
    match j
    case Null => 0
    case Bool(_) => 1
    case Int(_) => 2
    case Float(_) => 3
    case Str(_) => 4
    case List(_) => 5
    case Obj(_) => 6
  }

  lemma {:induction false} CodeStarts(j: Json)
    ensures Code(j) != [] && Code(j)[0] == Kind(j)
  {
  }

  lemma {:induction false} CodeSplits(a: Json, b: Json, x: Bytes, y: Bytes)
    requires FloatFree(a) && FloatFree(b) && Code(a) + x == Code(b) + y
    ensures a == b && x == y
    decreases a, 2, 0
  {
    hide Unary, Items, Pairs, Text;
    CodeStarts(a);
    CodeStarts(b);
    assert (Code(a) + x)[0] == Kind(a) && (Code(b) + y)[0] == Kind(b);
    match a
    case Null => Drop([0], x, y);
    case Bool(p) =>
      assert (Code(a) + x)[1] == Code(a)[1] && (Code(b) + y)[1] == Code(b)[1];
      Drop(Code(a), x, y);
    case Int(n) => IntSplits(n, b.number, x, y);
    case Str(s) =>
      Shift([4], Text(s), x);
      Shift([4], Text(b.text), y);
      Drop([4], Text(s) + x, Text(b.text) + y);
      TextSplits(s, b.text, x, y);
    case List(_) => ListsSplit(a, b, x, y);
    case Obj(_) => ObjectsSplit(a, b, x, y);
  }

  lemma {:induction false} ListsSplit(a: Json, b: Json, x: Bytes, y: Bytes)
    requires a.List? && b.List? && FloatFree(a) && FloatFree(b) && Code(a) + x == Code(b) + y
    ensures a == b && x == y
    decreases a, 1, 0
  {
    hide Unary, Items, Code;
    ListCode(a, x);
    ListCode(b, y);
    Drop([5], Unary(|a.items|) + (Items(a, 0) + x), Unary(|b.items|) + (Items(b, 0) + y));
    UnarySplits(|a.items|, |b.items|, Items(a, 0) + x, Items(b, 0) + y);
    ItemsSplit(a, b, 0, x, y);
    assert a.items[0..] == a.items && b.items[0..] == b.items;
  }

  lemma {:induction false} ObjectsSplit(a: Json, b: Json, x: Bytes, y: Bytes)
    requires a.Obj? && b.Obj? && FloatFree(a) && FloatFree(b) && Code(a) + x == Code(b) + y
    ensures a == b && x == y
    decreases a, 1, 0
  {
    hide Unary, Pairs, Code;
    var ks, ls := Listing(a.fields.Keys), Listing(b.fields.Keys);
    ObjectCode(a, x);
    ObjectCode(b, y);
    Drop([6], Unary(|ks|) + (Pairs(a, ks, 0) + x), Unary(|ls|) + (Pairs(b, ls, 0) + y));
    UnarySplits(|ks|, |ls|, Pairs(a, ks, 0) + x, Pairs(b, ls, 0) + y);
    PairsSplit(a, b, ks, ls, 0, x, y);
    assert ks[0..] == ks && ls[0..] == ls;
    assert a.fields.Keys == b.fields.Keys;
    assert forall k | k in a.fields :: a.fields[k] == b.fields[k];
    assert a.fields == b.fields;
  }

  lemma ListCode(j: Json, x: Bytes)
    requires j.List?
    ensures Code(j) + x == [5] + (Unary(|j.items|) + (Items(j, 0) + x))
  {
    hide Unary, Items;
  }

  lemma ObjectCode(j: Json, x: Bytes)
    requires j.Obj?
    ensures var ks := Listing(j.fields.Keys); Code(j) + x == [6] + (Unary(|ks|) + (Pairs(j, ks, 0) + x))
  {
    hide Unary, Pairs, Listing;
  }

  lemma {:induction false} IntSplits(m: int, n: int, x: Bytes, y: Bytes)
    requires Code(Int(m)) + x == Code(Int(n)) + y
    ensures m == n && x == y
  {
    assert (Code(Int(m)) + x)[1] == (if m < 0 then 1 else 0) && (Code(Int(n)) + y)[1] == (if n < 0 then 1 else 0);
    var (s, a, b) := (if m < 0 then [2, 1] else [2, 0], if m < 0 then -m else m, if n < 0 then -n else n);
    Shift(s, Unary(a), x);
    Shift(s, Unary(b), y);
    Drop(s, Unary(a) + x, Unary(b) + y);
    UnarySplits(a, b, x, y);
  }

  lemma {:induction false} ItemsSplit(a: Json, b: Json, i: nat, x: Bytes, y: Bytes)
    requires a.List? && b.List? && |a.items| == |b.items| && i <= |a.items| && FloatFree(a) && FloatFree(b)
    requires Items(a, i) + x == Items(b, i) + y
    ensures a.items[i..] == b.items[i..] && x == y
    decreases a, 0, |a.items| - i
  {
    hide Code;
    if i == |a.items| {
      assert Items(a, i) + x == x && Items(b, i) + y == y;
    } else {
      Shift(Code(a.items[i]), Items(a, i + 1), x);
      Shift(Code(b.items[i]), Items(b, i + 1), y);
      CodeSplits(a.items[i], b.items[i], Items(a, i + 1) + x, Items(b, i + 1) + y);
      ItemsSplit(a, b, i + 1, x, y);
      assert a.items[i..] == [a.items[i]] + a.items[i + 1..] && b.items[i..] == [b.items[i]] + b.items[i + 1..];
    }
  }

  lemma {:induction false} PairsSplit(a: Json, b: Json, ks: seq<string>, ls: seq<string>, i: nat, x: Bytes, y: Bytes)
    requires a.Obj? && b.Obj? && FloatFree(a) && FloatFree(b) && |ks| == |ls| && i <= |ks|
    requires (forall k | k in ks :: k in a.fields) && (forall k | k in ls :: k in b.fields)
    requires Pairs(a, ks, i) + x == Pairs(b, ls, i) + y
    ensures ks[i..] == ls[i..] && x == y
    ensures forall k | k in ks[i..] :: k in b.fields && a.fields[k] == b.fields[k]
    decreases a, 0, |ks| - i
  {
    hide Code, Text;
    if i == |ks| {
      assert Pairs(a, ks, i) + x == x && Pairs(b, ls, i) + y == y;
    } else {
      var (k, l) := (ks[i], ls[i]);
      var (c, d) := (Code(a.fields[k]), Code(b.fields[l]));
      var (p, q) := (Pairs(a, ks, i + 1), Pairs(b, ls, i + 1));
      Shift(Text(k), c + p, x);
      Shift(Text(l), d + q, y);
      Shift(c, p, x);
      Shift(d, q, y);
      TextSplits(k, l, c + (p + x), d + (q + y));
      CodeSplits(a.fields[k], b.fields[l], p + x, q + y);
      PairsSplit(a, b, ks, ls, i + 1, x, y);
      assert ks[i..] == [k] + ks[i + 1..] && ls[i..] == [l] + ls[i + 1..];
    }
  }

  // --------------------------------------------------------------------- the host

  ghost function Decode(b: Bytes): Parsed {
    if exists j :: FloatFree(j) && Code(j) == b then
      var j :| FloatFree(j) && Code(j) == b;
      Parsed(j)
    else NotJson
  }

  lemma {:induction false} DecodeInverts(j: Json)
    requires FloatFree(j)
    ensures Decode(Code(j)) == Parsed(j)
  {
    hide FloatFree, Code;
    assert exists i :: FloatFree(i) && Code(i) == Code(j);
    var i := Decode(Code(j)).value;
    assert FloatFree(i) && Code(i) == Code(j);
    assert Code(i) + [] == Code(j) + [];
    CodeSplits(i, j, [], []);
  }

  const ZEROS: string := seq(64, _ => '0')

  function Resolve(s: string): Path {
    if s == "/a " then ["a "] else ["a"]
  }

  lemma ResolveLaw(s: string)
    ensures Resolve(Show(Resolve(s))) == Resolve(s)
  {
    hide Show;
    ShowTwo();
  }

  lemma ZerosAreHex()
    ensures IsSha256(ZEROS)
  {
  }

  /** All laws together have a model, one in which the path `/a ` is not found again under its stripped text. */
  lemma {:induction false} LawfulHostExists() returns (h: Host)
    ensures ResolvesShown(h) && DigestsAreHex(h) && ReadsBack(h)
    ensures h.resolve("/a ") == ["a "] && h.resolve(Strip(Show(["a "]))) == ["a"]
  {
    hide FloatFree, Code, Decode, ZEROS, Show, Strip, IsSha256;
    h := Host(s => Resolve(s), b => ZEROS, b => Decode(b), j => Code(j));
    assert ReadsBack(h) by {
      forall j | FloatFree(j) ensures h.parse(h.dump(j)) == Parsed(j) {
        DecodeInverts(j);
      }
    }
    assert DigestsAreHex(h) by { ZerosAreHex(); }
    ShowTwo();
    hide Resolve;
    forall s ensures h.resolve(Show(h.resolve(s))) == h.resolve(s) {
      ResolveLaw(s);
    }
    assert Resolve("/a ") == ["a "] && Resolve("/a") == ["a"] by { ResolveTwo(); }
  }

  lemma ResolveTwo()
    ensures Resolve("/a ") == ["a "] && Resolve("/a") == ["a"]
  {
    assert |"/a "| == 3 && |"/a"| == 2;
  }

  lemma ShowTwo()
    ensures Show(["a "]) == "/a " && Show(["a"]) == "/a" && Strip("/a ") == "/a"
  {
    assert ["a "][1..] == [] && ["a"][1..] == [];
    assert ShowParts([]) == "";
    assert Show(["a "]) == "/" + "a " + "" == "/a ";
    assert Show(["a"]) == "/" + "a" + "" == "/a";
    StripFromNonSpace("/a ");
    assert "/a "[..2] == "/a";
    assert IsSpace("/a "[2]);
    assert RStrip("/a") == "/a";
  }

  /** The failing input of build-then-verify, in full: a host, a disk and a path that is indexed and then refused. */
  lemma {:induction false} RefusedInputExists(data: Bytes) returns (h: Host, d: Disk, paths: map<string, string>)
    ensures ResolvesShown(h) && DigestsAreHex(h) && ReadsBack(h)
    ensures var built := IndexAll(h, d, paths, ARTIFACT_SPECS);
      built.Ok? && built.value != [] && !CheckPayload(h, d, None, Obj(ManifestFields(built.value))).Accepted?
  {
    hide ResolvesShown, DigestsAreHex, ReadsBack, IndexAll, CheckPayload, ManifestFields, ARTIFACT_SPECS, PLAN_MD, Strip, Show;
    h := LawfulHostExists();
    assert |"a "| == 2 && |"a"| == 1;
    assert h.resolve("/a ")[0] != h.resolve(Strip(Show(h.resolve("/a "))))[0];
    TrailingSpaceIsRefused(h, "/a ", data);
    d, paths := Disk(map[h.resolve("/a ") := data], {}), map[PLAN_MD := "/a "];
  }
}
