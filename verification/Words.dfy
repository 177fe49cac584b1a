/** Bytes, machine words and the big-endian layout that every frame field uses. */
module Words {
  type u8 = n: int | 0 <= n < 0x100
  type u16 = n: int | 0 <= n < 0x1_0000
  type u32 = n: int | 0 <= n < TWO32

  const TWO32: int := 0x1_0000_0000
  const MAX32: u32 := 0xFFFF_FFFF

  datatype Option<+T> = None | Some(value: T)

  function Be16(p: seq<u8>): u16
    requires |p| == 2
  {
    p[0] as int * 0x100 + p[1] as int
  }

  function Be32(p: seq<u8>): u32
    requires |p| == 4
  {
    ((p[0] as int * 0x100 + p[1] as int) * 0x100 + p[2] as int) * 0x100 + p[3] as int
  }

  function Pack16(v: u16): (p: seq<u8>)
    ensures |p| == 2 && Be16(p) == v
  {
    [v / 0x100, v % 0x100]
  }

  function Pack32(v: u32): (p: seq<u8>)
    ensures |p| == 4 && Be32(p) == v
  {
    var w := v / 0x100;
    var x := w / 0x100;
    [x / 0x100, x % 0x100, w % 0x100, v % 0x100]
  }

  lemma {:induction false} Pack16Be16(p: seq<u8>)
    requires |p| == 2
    ensures Pack16(Be16(p)) == p
  {}

  lemma {:induction false} Digits(a: int, b: int)
    requires 0 <= b < 0x100
    ensures (a * 0x100 + b) / 0x100 == a && (a * 0x100 + b) % 0x100 == b
  {}

  lemma {:induction false} Pack32Be32(p: seq<u8>)
    requires |p| == 4
    ensures Pack32(Be32(p)) == p
  {
    var x := p[0] as int * 0x100 + p[1] as int;
    Digits(x * 0x100 + p[2] as int, p[3]);
    Digits(x, p[2]);
    Digits(p[0], p[1]);
  }

  /** The addition and subtraction of zce_uint32: modulo two to the 32. */
  function Succ32(n: u32): u32 { (n + 1) % TWO32 }

  function Sub32(a: u32, b: u32): u32 { (a - b) % TWO32 }

  lemma {:induction false} Assoc<T>(a: seq<T>, b: seq<T>, c: seq<T>)
    ensures a + b + c == a + (b + c)
  {}

  lemma {:induction false} TakeDrop<T>(s: seq<T>, n: nat)
    requires n <= |s|
    ensures s[..n] + s[n..] == s
  {}

  lemma {:induction false} SliceOfTail<T>(s: seq<T>, i: nat, n: nat)
    requires i + n <= |s|
    ensures s[i..][..n] == s[i..i + n] && s[i..][n..] == s[i + n..]
  {}

  function Onwards<T>(s: seq<T>, i: nat): seq<T>
    requires i <= |s|
  {
    s[i..]
  }

  lemma {:induction false} OnwardsNext<T>(s: seq<T>, i: nat)
    requires i < |s|
    ensures Onwards(s, i) != [] && Onwards(s, i)[0] == s[i] && Onwards(s, i)[1..] == Onwards(s, i + 1)
  {}

  function Flat<T>(parts: seq<seq<T>>): seq<T> {
    if parts == [] then [] else parts[0] + Flat(parts[1..])
  }

  lemma {:induction false} FlatAppend<T>(a: seq<seq<T>>, b: seq<seq<T>>)
    ensures Flat(a + b) == Flat(a) + Flat(b)
  {
    if a == [] {
      assert a + b == b;
    } else {
      assert (a + b)[1..] == a[1..] + b;
      FlatAppend(a[1..], b);
    }
  }

  lemma {:induction false} FlatCons<T>(x: seq<T>, a: seq<seq<T>>)
    ensures Flat([x] + a) == x + Flat(a)
  {
    assert ([x] + a)[1..] == a;
  }

  lemma {:induction false} FlatSnoc<T>(a: seq<seq<T>>, x: seq<T>)
    ensures Flat(a + [x]) == Flat(a) + x
  {
    FlatAppend(a, [x]);
    assert Flat([x]) == x + Flat<T>([]);
  }

  lemma {:induction false} FlatPrefix<T>(a: seq<seq<T>>, n: nat)
    requires n <= |a|
    ensures Flat(a[..n]) <= Flat(a)
  {
    FlatAppend(a[..n], a[n..]);
    assert a == a[..n] + a[n..];
  }
}
