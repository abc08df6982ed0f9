/** The laws assumed of the library code can be met: a library that satisfies all of them, built for any byte
    strings prescribed and giving each of those another digest. JSON values are written in a prefix
    code made for the purpose, and digests are the positions of the prescribed strings in base sixteen. None of
    this is how Python does it; it shows that the hypotheses of the other modules do not contradict each other. */
module LibraryExists {
  import opened Wrappers
  import opened JsonValues
  import opened Libraries
  import Text

  // ---- A prefix code for JSON values ----

  function NatCode(n: nat): Bytes {
    if n == 0 then [0] else [1] + NatCode(n - 1)
  }

  function IntCode(i: int): Bytes {
    if i >= 0 then [2] + NatCode(i) else [3] + NatCode(-i)
  }

  function CharCodes(s: string): Bytes {
    if s == "" then [] else NatCode(s[0] as int) + CharCodes(s[1..])
  }

  function StringCode(s: string): Bytes {
    NatCode(|s|) + CharCodes(s)
  }

  function JsonCode(j: Json): Bytes
    decreases j, 1, 0
  {
    match j
    case Null => [2]
    case Bool(b) => if b then [3, 1] else [3, 0]
    case Int(n) => [4] + IntCode(n)
    case Float(whole, fraction) => [5] + (IntCode(whole) + NatCode(fraction))
    case NegativeZero => [6]
    case NonFinite => [7]
    case Str(s) => [8] + StringCode(s)
    case Arr(items) => [0] + (NatCode(|items|) + ItemCodes(j, 0))
    case Obj(fields) => [1] + (NatCode(|fields.Keys|) + FieldCodes(j, Text.Sorted(fields.Keys)))
  }

  function ItemCodes(j: Json, n: nat): Bytes
    requires j.Arr? && n <= |j.items|
    decreases j, 0, |j.items| - n
  {
    if n == |j.items| then [] else JsonCode(j.items[n]) + ItemCodes(j, n + 1)
  }

  function FieldCodes(j: Json, keys: seq<string>): Bytes
    requires j.Obj? && forall k | k in keys :: k in j.fields
    decreases j, 0, |keys|
  {
    if keys == [] then []
    else
      assert keys[0] in keys;
      StringCode(keys[0]) + (JsonCode(j.fields[keys[0]]) + FieldCodes(j, keys[1..]))
  }

  lemma Cancel(t: Byte, a: Bytes, b: Bytes, x: Bytes, y: Bytes)
    requires [t] + a + x == [t] + b + y
    ensures a + x == b + y
  {
    assert ([t] + a + x)[1..] == a + x && ([t] + b + y)[1..] == b + y;
  }

  lemma {:induction false} NatPrefix(a: nat, b: nat, x: Bytes, y: Bytes)
    requires NatCode(a) + x == NatCode(b) + y
    ensures a == b && x == y
  {
    assert (NatCode(a) + x)[0] == NatCode(a)[0] && (NatCode(b) + y)[0] == NatCode(b)[0];
    if a == 0 {
      assert ([0] + x)[1..] == x && ([0] + y)[1..] == y;
    } else {
      Cancel(1, NatCode(a - 1), NatCode(b - 1), x, y);
      NatPrefix(a - 1, b - 1, x, y);
    }
  }

  lemma IntPrefix(a: int, b: int, x: Bytes, y: Bytes)
    requires IntCode(a) + x == IntCode(b) + y
    ensures a == b && x == y
  {
    assert (IntCode(a) + x)[0] == IntCode(a)[0] && (IntCode(b) + y)[0] == IntCode(b)[0];
    if a >= 0 {
      Cancel(2, NatCode(a), NatCode(b), x, y);
      NatPrefix(a, b, x, y);
    } else {
      Cancel(3, NatCode(-a), NatCode(-b), x, y);
      NatPrefix(-a, -b, x, y);
    }
  }

  /** Codes in sequence part at the same place. */
  lemma NatThen(a: nat, b: nat, r: Bytes, s: Bytes, x: Bytes, y: Bytes)
    requires NatCode(a) + r + x == NatCode(b) + s + y
    ensures a == b && r + x == s + y
  {
    assert NatCode(a) + r + x == NatCode(a) + (r + x) && NatCode(b) + s + y == NatCode(b) + (s + y);
    NatPrefix(a, b, r + x, s + y);
  }

  lemma {:induction false} CharsPrefix(a: string, b: string, x: Bytes, y: Bytes)
    requires |a| == |b| && CharCodes(a) + x == CharCodes(b) + y
    ensures a == b && x == y
  {
    if a != "" {
      NatThen(a[0] as int, b[0] as int, CharCodes(a[1..]), CharCodes(b[1..]), x, y);
      CharsPrefix(a[1..], b[1..], x, y);
      assert a == [a[0]] + a[1..] && b == [b[0]] + b[1..];
    } else {
      assert [] + x == x && [] + y == y;
    }
  }

  lemma StringPrefix(a: string, b: string, x: Bytes, y: Bytes)
    requires StringCode(a) + x == StringCode(b) + y
    ensures a == b && x == y
  {
    NatThen(|a|, |b|, CharCodes(a), CharCodes(b), x, y);
    CharsPrefix(a, b, x, y);
  }

  lemma JsonCodeStarts(j: Json)
    ensures JsonCode(j) != []
    ensures JsonCode(j)[0] == match j
                              case Null => 2 case Bool(_) => 3 case Int(_) => 4
                              case Float(_, _) => 5 case NegativeZero => 6
                              case NonFinite => 7 case Str(_) => 8 case Arr(_) => 0 case Obj(_) => 1
  {
  }

  /** The code of a value tells where it ends and what it was. */
  lemma {:induction false} JsonPrefix(a: Json, b: Json, x: Bytes, y: Bytes)
    requires JsonCode(a) + x == JsonCode(b) + y
    ensures a == b && x == y
    decreases a, 1, 0
  {
    JsonCodeStarts(a);
    JsonCodeStarts(b);
    assert (JsonCode(a) + x)[0] == JsonCode(a)[0] && (JsonCode(b) + y)[0] == JsonCode(b)[0];
    match a {
      case Null => SameEnds([2], x, y);
      case NegativeZero => SameEnds([6], x, y);
      case NonFinite => SameEnds([7], x, y);
      case Bool(_) =>
        assert (JsonCode(a) + x)[1] == JsonCode(a)[1] && (JsonCode(b) + y)[1] == JsonCode(b)[1];
        SameEnds(JsonCode(a), x, y);
      case Int(n) =>
        Cancel(4, IntCode(n), IntCode(b.n), x, y);
        IntPrefix(n, b.n, x, y);
      case Float(whole, fraction) =>
        Cancel(5, IntCode(whole) + NatCode(fraction), IntCode(b.whole) + NatCode(b.fraction), x, y);
        Regroup(IntCode(whole), NatCode(fraction), x);
        Regroup(IntCode(b.whole), NatCode(b.fraction), y);
        IntPrefix(whole, b.whole, NatCode(fraction) + x, NatCode(b.fraction) + y);
        NatPrefix(fraction, b.fraction, x, y);
      case Str(s) =>
        Cancel(8, StringCode(s), StringCode(b.s), x, y);
        StringPrefix(s, b.s, x, y);
      case Arr(items) =>
        Cancel(0, NatCode(|items|) + ItemCodes(a, 0), NatCode(|b.items|) + ItemCodes(b, 0), x, y);
        NatThen(|items|, |b.items|, ItemCodes(a, 0), ItemCodes(b, 0), x, y);
        ItemsPrefix(a, b, 0, x, y);
        assert items[0..] == items && b.items[0..] == b.items;
      case Obj(fields) =>
        var keys, others := Text.Sorted(fields.Keys), Text.Sorted(b.fields.Keys);
        Cancel(1, NatCode(|fields.Keys|) + FieldCodes(a, keys), NatCode(|b.fields.Keys|) + FieldCodes(b, others), x, y);
        NatThen(|fields.Keys|, |b.fields.Keys|, FieldCodes(a, keys), FieldCodes(b, others), x, y);
        FieldsPrefix(a, b, keys, others, x, y);
        SameFields(a, b, keys);
    }
  }

  lemma SameEnds(a: Bytes, x: Bytes, y: Bytes)
    requires a + x == a + y
    ensures x == y
  {
    assert (a + x)[|a|..] == x && (a + y)[|a|..] == y;
  }

  lemma Regroup(a: Bytes, b: Bytes, c: Bytes)
    ensures (a + b) + c == a + (b + c)
  {
  }

  lemma SameFields(a: Json, b: Json, keys: seq<string>)
    requires a.Obj? && b.Obj? && keys == Text.Sorted(a.fields.Keys) == Text.Sorted(b.fields.Keys)
    requires forall k | k in keys :: k in a.fields && k in b.fields && a.fields[k] == b.fields[k]
    ensures a == b
  {
    assert a.fields.Keys == b.fields.Keys by {
      forall k ensures k in a.fields.Keys <==> k in b.fields.Keys {
        assert k in keys <==> k in a.fields.Keys;
      }
    }
  }

  lemma {:induction false} ItemsPrefix(a: Json, b: Json, n: nat, x: Bytes, y: Bytes)
    requires a.Arr? && b.Arr? && |a.items| == |b.items| && n <= |a.items|
    requires ItemCodes(a, n) + x == ItemCodes(b, n) + y
    ensures a.items[n..] == b.items[n..] && x == y
    decreases a, 0, |a.items| - n
  {
    if n == |a.items| {
      assert [] + x == x && [] + y == y;
    } else {
      Regroup(JsonCode(a.items[n]), ItemCodes(a, n + 1), x);
      Regroup(JsonCode(b.items[n]), ItemCodes(b, n + 1), y);
      JsonPrefix(a.items[n], b.items[n], ItemCodes(a, n + 1) + x, ItemCodes(b, n + 1) + y);
      ItemsPrefix(a, b, n + 1, x, y);
      assert a.items[n..] == [a.items[n]] + a.items[n + 1..] && b.items[n..] == [b.items[n]] + b.items[n + 1..];
    }
  }

  lemma {:induction false} FieldsPrefix(a: Json, b: Json, keys: seq<string>, others: seq<string>, x: Bytes, y: Bytes)
    requires a.Obj? && b.Obj? && |keys| == |others|
    requires (forall k | k in keys :: k in a.fields) && (forall k | k in others :: k in b.fields)
    requires FieldCodes(a, keys) + x == FieldCodes(b, others) + y
    ensures keys == others && x == y && forall k | k in keys :: k in b.fields && a.fields[k] == b.fields[k]
    decreases a, 0, |keys|
  {
    if keys == [] {
      assert [] + x == x && [] + y == y;
    } else {
      var k, l := keys[0], others[0];
      assert k in keys && l in others;
      var restA, restB := FieldCodes(a, keys[1..]), FieldCodes(b, others[1..]);
      Regroup(StringCode(k), JsonCode(a.fields[k]) + restA, x);
      Regroup(StringCode(l), JsonCode(b.fields[l]) + restB, y);
      StringPrefix(k, l, JsonCode(a.fields[k]) + restA + x, JsonCode(b.fields[l]) + restB + y);
      Regroup(JsonCode(a.fields[k]), restA, x);
      Regroup(JsonCode(b.fields[l]), restB, y);
      JsonPrefix(a.fields[k], b.fields[l], restA + x, restB + y);
      FieldsPrefix(a, b, keys[1..], others[1..], x, y);
      assert keys == [k] + keys[1..] && others == [l] + others[1..];
    }
  }

  lemma JsonCodeInjective(a: Json, b: Json)
    requires JsonCode(a) == JsonCode(b)
    ensures a == b
  {
    JsonPrefix(a, b, [], []);
  }

  // ---- Small bytes: codes are one line of text ----

  ghost predicate Small(b: Bytes) {
    forall i | 0 <= i < |b| :: b[i] < 9
  }

  lemma SmallConcat(a: Bytes, b: Bytes)
    requires Small(a) && Small(b)
    ensures Small(a + b)
  {
  }

  lemma SmallByte(t: Byte)
    requires t < 9
    ensures Small([t])
  {
  }

  lemma {:induction false} NatSmall(n: nat)
    ensures Small(NatCode(n))
  {
    if n > 0 { NatSmall(n - 1); }
  }

  lemma IntSmall(i: int)
    ensures Small(IntCode(i))
  {
    NatSmall(if i >= 0 then i else -i);
  }

  lemma {:induction false} CharsSmall(s: string)
    ensures Small(CharCodes(s))
  {
    if s != "" {
      NatSmall(s[0] as int);
      CharsSmall(s[1..]);
    }
  }

  lemma StringSmall(s: string)
    ensures Small(StringCode(s))
  {
    NatSmall(|s|);
    CharsSmall(s);
  }

  lemma {:induction false} JsonSmall(j: Json)
    ensures Small(JsonCode(j))
    decreases j, 1, 0
  {
    hide Small, NatCode, IntCode, StringCode;
    SmallByte(2); SmallByte(4); SmallByte(5); SmallByte(6); SmallByte(7); SmallByte(8); SmallByte(0); SmallByte(1);
    match j {
      case Bool(b) => assert Small(JsonCode(j)) by { BoolSmall(b); }
      case Int(n) => IntSmall(n); SmallConcat([4], IntCode(n));
      case Float(whole, fraction) =>
        IntSmall(whole);
        NatSmall(fraction);
        SmallConcat(IntCode(whole), NatCode(fraction));
        SmallConcat([5], IntCode(whole) + NatCode(fraction));
      case Str(s) => StringSmall(s); SmallConcat([8], StringCode(s));
      case Arr(items) =>
        NatSmall(|items|);
        ItemsSmall(j, 0);
        SmallConcat(NatCode(|items|), ItemCodes(j, 0));
        SmallConcat([0], NatCode(|items|) + ItemCodes(j, 0));
      case Obj(fields) =>
        var codes := FieldCodes(j, Text.Sorted(fields.Keys));
        NatSmall(|fields.Keys|);
        FieldsSmall(j, Text.Sorted(fields.Keys));
        SmallConcat(NatCode(|fields.Keys|), codes);
        SmallConcat([1], NatCode(|fields.Keys|) + codes);
      case _ =>
    }
  }

  lemma BoolSmall(b: bool)
    ensures Small(JsonCode(Bool(b)))
  {
  }

  lemma {:induction false} ItemsSmall(j: Json, n: nat)
    requires j.Arr? && n <= |j.items|
    ensures Small(ItemCodes(j, n))
    decreases j, 0, |j.items| - n
  {
    if n < |j.items| {
      hide Small;
      JsonSmall(j.items[n]);
      ItemsSmall(j, n + 1);
      SmallConcat(JsonCode(j.items[n]), ItemCodes(j, n + 1));
    }
  }

  lemma {:induction false} FieldsSmall(j: Json, keys: seq<string>)
    requires j.Obj? && forall k | k in keys :: k in j.fields
    ensures Small(FieldCodes(j, keys))
    decreases j, 0, |keys|
  {
    if keys != [] {
      hide Small, StringCode;
      var k := keys[0];
      assert k in keys;
      StringSmall(k);
      JsonSmall(j.fields[k]);
      FieldsSmall(j, keys[1..]);
      SmallConcat(JsonCode(j.fields[k]), FieldCodes(j, keys[1..]));
      SmallConcat(StringCode(k), JsonCode(j.fields[k]) + FieldCodes(j, keys[1..]));
    }
  }

  // ---- The library ----

  function Chars(b: Bytes): string {
    seq(|b|, i requires 0 <= i < |b| => b[i] as int as char)
  }

  lemma CharsInjective(a: Bytes, b: Bytes)
    requires Chars(a) == Chars(b)
    ensures a == b
  {
    assert |a| == |Chars(a)| == |Chars(b)| == |b|;
    forall i | 0 <= i < |a| ensures a[i] == b[i] {
      assert Chars(a)[i] == Chars(b)[i];
    }
  }

  predicate SmallText(s: string) {
    forall i | 0 <= i < |s| :: s[i] as int < 9
  }

  /** Text of small characters as it is, any other text as a marked code. */
  function TextCode(s: string): Bytes {
    if SmallText(s) then seq(|s|, i requires 0 <= i < |s| => s[i] as int as Byte)
    else [255] + StringCode(s)
  }

  /** Only a marked code starts with the mark. */
  lemma TextCodeMarks(s: string)
    ensures SmallText(s) <==> TextCode(s) == [] || TextCode(s)[0] != 255
  {
    if SmallText(s) && s != "" {
      assert TextCode(s)[0] as int == s[0] as int < 9;
    }
  }

  lemma TextCodeInjective(s: string, t: string)
    requires TextCode(s) == TextCode(t)
    ensures s == t
  {
    TextCodeMarks(s);
    TextCodeMarks(t);
    if SmallText(s) {
      assert |s| == |TextCode(s)| == |TextCode(t)| == |t|;
      forall i | 0 <= i < |s| ensures s[i] == t[i] {
        assert TextCode(s)[i] == TextCode(t)[i];
      }
    } else {
      assert TextCode(s)[1..] == StringCode(s) && TextCode(t)[1..] == StringCode(t);
      assert StringCode(s) + [] == StringCode(t) + [];
      StringPrefix(s, t, [], []);
    }
  }

  lemma TextCodeOfChars(b: Bytes)
    requires Small(b)
    ensures TextCode(Chars(b)) == b
  {
    var s := Chars(b);
    assert forall i | 0 <= i < |s| :: s[i] as int == b[i] as int;
    assert SmallText(s);
  }

  ghost predicate IsCodeOf(j: Json, b: Bytes) {
    Finite(j) && JsonCode(j) == b
  }

  function WithoutEnd(b: Bytes): Bytes {
    if b != [] && b[|b| - 1] == LF then b[..|b| - 1] else b
  }

  ghost function LoadCode(b: Bytes): Loaded {
    if exists j :: IsCodeOf(j, WithoutEnd(b)) then
      var j :| IsCodeOf(j, WithoutEnd(b));
      Value(j)
    else Malformed
  }

  ghost function LoadText(s: string): Option<Json> {
    if exists j :: IsCodeOf(j, TextCode(s)) then
      var j :| IsCodeOf(j, TextCode(s));
      Some(j)
    else None
  }

  ghost function TextOf(b: Bytes): Option<string> {
    if exists s :: TextCode(s) == b then
      var s :| TextCode(s) == b;
      Some(s)
    else None
  }

  ghost function TimeOf(s: string): Result<int, string> {
    if exists t :: Chars(IntCode(t)) == s then
      var t :| Chars(IntCode(t)) == s;
      Ok(t)
    else Err("invalid_timestamp")
  }

  // ---- A digest that separates given byte strings ----

  function HexOf(d: nat): char
    requires d < 16
  {
    "0123456789abcdef"[d]
  }

  /** The last n hexadecimal digits of a number. */
  function Digits(k: nat, n: nat): (s: string)
    ensures |s| == n && forall i | 0 <= i < n :: HexDigit(s[i])
  {
    if n == 0 then "" else Digits(k / 16, n - 1) + [HexOf(k % 16)]
  }

  /** How many numbers n hexadecimal digits can tell apart. */
  function Sixteens(n: nat): nat {
    if n == 0 then 1 else 16 * Sixteens(n - 1)
  }

  lemma {:induction false} DigitsInjective(j: nat, k: nat, n: nat)
    requires j < Sixteens(n) && k < Sixteens(n) && Digits(j, n) == Digits(k, n)
    ensures j == k
  {
    if n > 0 {
      assert Digits(j, n)[n - 1] == HexOf(j % 16) && Digits(k, n)[n - 1] == HexOf(k % 16);
      assert Digits(j, n)[..n - 1] == Digits(j / 16, n - 1) && Digits(k, n)[..n - 1] == Digits(k / 16, n - 1);
      DigitsInjective(j / 16, k / 16, n - 1);
    }
  }

  function IndexOf(contents: seq<Bytes>, b: Bytes): (i: nat)
    ensures i <= |contents| && (b in contents ==> i < |contents| && contents[i] == b)
  {
    if contents == [] || contents[0] == b then 0 else 1 + IndexOf(contents[1..], b)
  }

  /** The digest of a listed byte string is its index. */
  ghost function Witness(contents: seq<Bytes>): Library {
    Library(
      j => JsonCode(j), j => Chars(JsonCode(j)), j => JsonCode(j), b => LoadCode(b), s => LoadText(s),
      s => TextCode(s), b => TextOf(b), b => Digits(IndexOf(contents, b), 64), (k, s) => "", s => None,
      t => Chars(IntCode(t)), s => TimeOf(s), t => Null, (run, codes) => Some([]))
  }

  lemma LoadsBack(j: Json, b: Bytes)
    requires Finite(j) && WithoutEnd(b) == JsonCode(j)
    ensures LoadCode(b) == Value(j)
  {
    assert IsCodeOf(j, WithoutEnd(b));
    forall k | IsCodeOf(k, WithoutEnd(b)) ensures k == j {
      JsonCodeInjective(k, j);
    }
  }

  lemma LoadsTextBack(j: Json)
    requires Finite(j)
    ensures TextOf(JsonCode(j)).Some? && LoadText(TextOf(JsonCode(j)).value) == Some(j)
  {
    JsonSmall(j);
    TextCodeOfChars(JsonCode(j));
    var s := TextOf(JsonCode(j)).value;
    assert IsCodeOf(j, TextCode(s));
    forall k | IsCodeOf(k, TextCode(s)) ensures k == j {
      JsonCodeInjective(k, j);
    }
  }

  lemma TextsBack(s: string)
    ensures TextOf(TextCode(s)) == Some(s)
  {
    forall t | TextCode(t) == TextCode(s) ensures t == s {
      TextCodeInjective(t, s);
    }
  }

  lemma TimesBack(t: int)
    ensures TimeOf(Chars(IntCode(t))) == Ok(t)
  {
    forall u | Chars(IntCode(u)) == Chars(IntCode(t)) ensures u == t {
      CharsInjective(IntCode(u), IntCode(t));
      assert IntCode(u) + [] == IntCode(t) + [];
      IntPrefix(u, t, [], []);
    }
  }

  lemma CodecLawsHold(contents: seq<Bytes>)
    ensures Witness(contents).CodecLaws()
  {
    var lib := Witness(contents);
    forall j | Finite(j)
      ensures lib.loads(lib.encode(j)) == lib.loads(lib.encode(j) + [LF]) == lib.loads(lib.pretty(j) + [LF]) == Value(j)
      ensures lib.text(lib.encode(j)).Some? && lib.loadsText(lib.text(lib.encode(j)).value) == Some(j)
      ensures !Blank(lib.encode(j)) && OneLine(lib.encode(j))
    {
      JsonSmall(j);
      JsonCodeStarts(j);
      LoadsBack(j, JsonCode(j));
      assert WithoutEnd(JsonCode(j) + [LF]) == JsonCode(j);
      LoadsBack(j, JsonCode(j) + [LF]);
      LoadsTextBack(j);
    }
    forall j, k | lib.encodeAscii(j) == lib.encodeAscii(k) ensures j == k {
      CharsInjective(JsonCode(j), JsonCode(k));
      JsonCodeInjective(j, k);
    }
  }

  lemma IndexDigest(contents: seq<Bytes>, b: Bytes)
    ensures HexDigest(Witness(contents).sha256(b))
  {
    assert Witness(contents).sha256(b) == Digits(IndexOf(contents, b), 64);
  }

  lemma WitnessIsLawful(contents: seq<Bytes>)
    ensures Witness(contents).Lawful()
  {
    hide Digits, IndexOf, HexDigest;
    var lib := Witness(contents);
    CodecLawsHold(contents);
    forall s ensures lib.text(lib.utf8(s)) == Some(s) {
      TextsBack(s);
    }
    forall t ensures lib.parseUtc(lib.formatUtc(t)) == Ok(t) && Finite(lib.seconds(t)) {
      TimesBack(t);
    }
    forall b ensures HexDigest(lib.sha256(b)) {
      IndexDigest(contents, b);
    }
    assert lib.TextLaws() && lib.TimeLaws() && lib.ReportLaws() && lib.DigestLaws();
  }

  lemma WitnessSeparates(contents: seq<Bytes>)
    requires |contents| <= Sixteens(64)
    ensures NoCollision(Witness(contents), iset b | b in contents)
  {
    hide Digits, Sixteens;
    forall a, b | a in contents && b in contents && Witness(contents).sha256(a) == Witness(contents).sha256(b)
      ensures a == b
    {
      DigitsInjective(IndexOf(contents, a), IndexOf(contents, b), 64);
    }
  }

  /** Some library satisfies every law assumed of the library code and gives these byte strings different
      digests, whichever they are and as many as there are digests. */
  lemma LawfulLibraryExists(contents: seq<Bytes>)
    requires |contents| <= Sixteens(64)
    ensures exists lib: Library :: lib.Lawful() && NoCollision(lib, iset b | b in contents)
  {
    hide Witness, NoCollision;
    WitnessIsLawful(contents);
    WitnessSeparates(contents);
    assert Witness(contents).Lawful();
  }
}
