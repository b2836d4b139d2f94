/** Object names: how an actor, an owner epoch and a state version are written and read back. */
module Names {
  datatype Option<+T> = None | Some(value: T)

  datatype Position = Position(epoch: nat, version: nat)

  /** Position order: an unreadable name sorts below every readable one. */
  predicate Before(a: Option<Position>, b: Option<Position>) {
    match (a, b)
    case (_, None) => false
    case (None, Some(_)) => true
    case (Some(p), Some(q)) => p.epoch < q.epoch || (p.epoch == q.epoch && p.version < q.version)
  }

  const U64_LIMIT: nat := 0x1_0000_0000_0000_0000

  // ---- Numbers ----

  function Digit(n: nat): char
    requires n < 16
  {
    "0123456789abcdef"[n]
  }

  function Decimal(n: nat): string {
    (if n < 10 then "" else Decimal(n / 10)) + [Digit(n % 10)]
  }

  /** `n` in lower-case hexadecimal, padded with zeros to `width` digits. */
  function Hex(n: nat, width: nat): string {
    if width == 0 then "" else Hex(n / 16, width - 1) + [Digit(n % 16)]
  }

  function DigitValue(c: char, radix: nat): Option<nat> {
    if '0' <= c <= '9' then Some(c as int - '0' as int)
    else if radix == 16 && 'a' <= c <= 'f' then Some(10 + (c as int - 'a' as int))
    else if radix == 16 && 'A' <= c <= 'F' then Some(10 + (c as int - 'A' as int))
    else None
  }

  function ParseDigits(s: string, radix: nat): Option<nat> {
    if s == "" then Some(0)
    else
      match (ParseDigits(s[..|s| - 1], radix), DigitValue(s[|s| - 1], radix))
      case (Some(high), Some(low)) =>
        var value := high * radix + low;
        if value < U64_LIMIT then Some(value) else None
      case _ => None
  }

  /** `u64` parsing: an optional '+', at least one digit, no overflow. */
  function ParseU64(s: string, radix: nat): Option<nat> {
    var digits := if "+" <= s then s[1..] else s;
    if digits == "" then None else ParseDigits(digits, radix)
  }

  // ---- Path components ----

  predicate Free(s: string, separator: char) {
    separator !in s
  }

  /** The text after the last '/', and the text before it if there is one. */
  function AfterLastSlash(s: string): string {
    if s == "" || s[|s| - 1] == '/' then "" else AfterLastSlash(s[..|s| - 1]) + [s[|s| - 1]]
  }

  function BeforeLastSlash(s: string): Option<string> {
    if s == "" then None
    else if s[|s| - 1] == '/' then Some(s[..|s| - 1])
    else BeforeLastSlash(s[..|s| - 1])
  }

  function Split(s: string, separator: char): (parts: seq<string>)
    ensures |parts| > 0
  {
    if s == "" then [""]
    else
      var rest := Split(s[1..], separator);
      if s[0] == separator then [""] + rest else [[s[0]] + rest[0]] + rest[1..]
  }

  /** Each component followed by a '/'. */
  function Path(components: seq<string>): string {
    if components == [] then "" else components[0] + "/" + Path(components[1..])
  }

  predicate EndsWith(s: string, suffix: string) {
    |suffix| <= |s| && s[|s| - |suffix|..] == suffix
  }

  function SnapshotPosition(name: string): Option<Position> {
    var file := AfterLastSlash(name);
    if !EndsWith(file, ".json") then None
    else
      match (ParseU64(file[..|file| - 5], 10), BeforeLastSlash(name))
      case (Some(version), Some(directory)) =>
        (match ParseU64(AfterLastSlash(directory), 16)
         case Some(epoch) => Some(Position(epoch, version))
         case None => None)
      case _ => None
  }

  // ---- Numbers read back ----

  lemma DigitIsDigit(n: nat)
    requires n < 16
    ensures DigitValue(Digit(n), 16) == Some(n)
    ensures n < 10 ==> DigitValue(Digit(n), 10) == Some(n)
    ensures Digit(n) != '/' && Digit(n) != '+' && Digit(n) != ':'
  {
  }

  lemma {:induction false} DecimalReadsBack(n: nat)
    requires n < U64_LIMIT
    ensures ParseU64(Decimal(n), 10) == Some(n)
    ensures Free(Decimal(n), '/')
  {
    DecimalDigits(n);
  }

  lemma {:induction false} DecimalDigits(n: nat)
    requires n < U64_LIMIT
    ensures Decimal(n) != "" && Decimal(n)[0] != '+'
    ensures ParseDigits(Decimal(n), 10) == Some(n)
    ensures Free(Decimal(n), '/')
  {
    var high := if n < 10 then "" else Decimal(n / 10);
    assert Decimal(n)[..|Decimal(n)| - 1] == high;
    DigitIsDigit(n % 10);
    if n >= 10 {
      DecimalDigits(n / 10);
    }
  }

  function Pow16(k: nat): nat {
    if k == 0 then 1 else 16 * Pow16(k - 1)
  }

  lemma {:induction false} HexReadsBack(n: nat, width: nat)
    requires n < U64_LIMIT && n < Pow16(width)
    ensures |Hex(n, width)| == width
    ensures ParseDigits(Hex(n, width), 16) == Some(n)
    ensures forall c :: c in Hex(n, width) ==> c != '/' && c != '+'
  {
    if width > 0 {
      HexReadsBack(n / 16, width - 1);
      DigitIsDigit(n % 16);
      assert Hex(n, width)[..width - 1] == Hex(n / 16, width - 1);
    }
  }

  lemma EpochFits(n: nat)
    requires n < U64_LIMIT
    ensures n < Pow16(32)
  {
    assert Pow16(8) == 0x1_0000_0000 by {
      assert Pow16(4) == 0x1_0000;
    }
    assert Pow16(16) == U64_LIMIT by {
      assert Pow16(12) == 0x1_0000_0000_0000;
    }
    Pow16Grows(16, 32);
  }

  lemma {:induction false} Pow16Grows(j: nat, k: nat)
    requires j <= k
    ensures Pow16(j) <= Pow16(k)
  {
    if j < k {
      Pow16Grows(j, k - 1);
    }
  }

  // ---- Components read back ----

  lemma {:induction false} LastComponent(directory: string, file: string)
    requires Free(file, '/')
    ensures AfterLastSlash(directory + "/" + file) == file
    ensures BeforeLastSlash(directory + "/" + file) == Some(directory)
  {
    var s := directory + "/" + file;
    if file == "" {
      assert s[..|s| - 1] == directory;
    } else {
      var shorter := file[..|file| - 1];
      assert s[..|s| - 1] == directory + "/" + shorter;
      LastComponent(directory, shorter);
    }
  }

  lemma {:induction false} SplitFirst(part: string, rest: string, separator: char)
    requires Free(part, separator)
    ensures Split(part + [separator] + rest, separator) == [part] + Split(rest, separator)
  {
    var s := part + [separator] + rest;
    if part == "" {
      assert s[1..] == rest;
    } else {
      assert s[1..] == part[1..] + [separator] + rest;
      SplitFirst(part[1..], rest, separator);
      assert [part[0]] + part[1..] == part;
    }
  }

  lemma {:induction false} SplitWhole(part: string, separator: char)
    requires Free(part, separator)
    ensures Split(part, separator) == [part]
  {
    if part != "" {
      SplitWhole(part[1..], separator);
      assert [part[0]] + part[1..] == part;
    }
  }

  lemma {:induction false} SplitPath(components: seq<string>, file: string)
    requires forall c :: c in components ==> Free(c, '/')
    requires Free(file, '/')
    ensures Split(Path(components) + file, '/') == components + [file]
  {
    if components == [] {
      assert Path(components) + file == file;
      SplitWhole(file, '/');
    } else {
      var rest := Path(components[1..]) + file;
      calc {
        Split(Path(components) + file, '/');
        { assert Path(components) + file == components[0] + ['/'] + rest; }
        Split(components[0] + ['/'] + rest, '/');
        { SplitFirst(components[0], rest, '/'); }
        [components[0]] + Split(rest, '/');
        { SplitPath(components[1..], file); }
        [components[0]] + (components[1..] + [file]);
        { assert components == [components[0]] + components[1..]; }
        components + [file];
      }
    }
  }

  lemma DropRoot(root: string, tail: string)
    ensures root <= root + tail && (root + tail)[|root|..] == tail
  {
  }

  lemma SameRoot(root: string, left: string, right: string)
    requires root + left <= root + right
    ensures left <= right
  {
    DropRoot(root, left);
    DropRoot(root, right);
    forall i | 0 <= i < |left| ensures left[i] == right[i] {
      assert (root + left)[|root| + i] == (root + right)[|root| + i];
    }
  }

  lemma Regroup(a: string, b: string, c: string)
    ensures a + b + c == a + (b + c)
  {
  }

  /** The first components of comparable paths agree. */
  lemma FirstComponent(left: string, x: string, right: string, y: string)
    requires Free(left, '/') && Free(right, '/')
    requires left + "/" + x <= right + "/" + y
    ensures left == right && x <= y
  {
    var (short, long) := (left + "/" + x, right + "/" + y);
    assert long[|left|] == short[|left|] == '/';
    assert long[|right|] == '/';
    assert forall i :: 0 <= i < |left| ==> long[i] == short[i] == left[i];
    assert forall i :: 0 <= i < |right| ==> long[i] == right[i];
    assert |left| == |right|;
    assert left == right;
    Regroup(left, "/", x);
    Regroup(right, "/", y);
    SameRoot(left + "/", x, y);
  }

  /** Paths with the same number of components are never proper prefixes of each other's objects. */
  lemma {:induction false} PathsAreIncomparable(left: seq<string>, right: seq<string>, tail: string)
    requires |left| == |right|
    requires forall i :: 0 <= i < |left| ==> Free(left[i], '/') && Free(right[i], '/')
    requires Path(left) <= Path(right) + tail
    ensures left == right
    decreases |left|
  {
    if left != [] {
      var rest := Path(right[1..]) + tail;
      Regroup(right[0] + "/", Path(right[1..]), tail);
      FirstComponent(left[0], Path(left[1..]), right[0], rest);
      PathsAreIncomparable(left[1..], right[1..], tail);
      assert left == [left[0]] + left[1..] && right == [right[0]] + right[1..];
    }
  }
}
