// 16-byte program-name buffers and the C string functions the registry applies to them
// (src/throttling_api.c:231-257, :270-283, :470-489, src/throttling_dev.c:157-162, :353-367).
module CStrings {

  type Byte = b: int | 0 <= b < 256

  const COMM_LEN := 16

  // strnlen
  function Strnlen(buf: seq<Byte>, n: nat): (len: nat)
    ensures len <= n && len <= |buf|
  {
    if n == 0 || buf == [] || buf[0] == 0 then 0 else 1 + Strnlen(buf[1..], n - 1)
  }

  // The C string a buffer holds; also the bytes jhash is given.
  function Text(buf: seq<Byte>): (t: seq<Byte>)
    ensures |t| <= COMM_LEN
  {
    buf[..Strnlen(buf, COMM_LEN)]
  }

  // At most 15 bytes, up to a terminator: what a name field of a command means, and the
  // string that strscpy leaves in a 16-byte buffer.
  function NameOf(bytes: seq<Byte>): (t: seq<Byte>)
    ensures |t| < COMM_LEN
  {
    bytes[..Strnlen(bytes, COMM_LEN - 1)]
  }

  // strncmp, as the difference of the first two bytes that differ.
  function Strncmp(a: seq<Byte>, b: seq<Byte>, n: nat): int
    requires |a| >= n && |b| >= n
  {
    if n == 0 then 0
    else if a[0] != b[0] then a[0] - b[0]
    else if a[0] == 0 then 0
    else Strncmp(a[1..], b[1..], n - 1)
  }

  // strncpy: copies up to the terminator and fills the rest of the n bytes with zeros.
  function Strncpy(src: seq<Byte>, n: nat): (dst: seq<Byte>)
    ensures |dst| == n
    decreases n
  {
    if n == 0 then []
    else if src == [] || src[0] == 0 then [0] + Strncpy([], n - 1)
    else [src[0]] + Strncpy(src[1..], n - 1)
  }

  predicate IsBuffer(buf: seq<Byte>)
  {
    |buf| == COMM_LEN
  }

  predicate Terminated(buf: seq<Byte>)
  {
    IsBuffer(buf) && 0 in buf
  }

  // A name: what a terminated buffer can hold.
  predicate IsName(t: seq<Byte>)
  {
    |t| < COMM_LEN && 0 !in t
  }

  // The name the register call stores: 15 bytes copied, the last one forced to zero.
  function Stored(name: seq<Byte>): (buf: seq<Byte>)
    ensures IsBuffer(buf)
  {
    Strncpy(name, COMM_LEN - 1) + [0]
  }

  // The name buffer of a register or deregister command: zeroed, then filled with at most
  // 15 bytes of the user's string.
  function FromUser(user: seq<Byte>): seq<Byte>
  {
    Stored(user)
  }

  // The buffer of a check command: 16 raw bytes, the last one forced to zero.
  function FromCheck(raw: seq<Byte>): (buf: seq<Byte>)
    requires IsBuffer(raw)
    ensures Terminated(buf)
  {
    var buf := raw[COMM_LEN - 1 := 0];
    assert buf[COMM_LEN - 1] == 0;
    buf
  }

  lemma {:induction false} StrnlenFacts(buf: seq<Byte>, n: nat)
    ensures 0 !in buf[..Strnlen(buf, n)]
    ensures Strnlen(buf, n) < n && Strnlen(buf, n) < |buf| ==> buf[Strnlen(buf, n)] == 0
    ensures n <= |buf| && 0 in buf[..n] ==> Strnlen(buf, n) < n
  {
    if n > 0 && buf != [] && buf[0] != 0 {
      StrnlenFacts(buf[1..], n - 1);
      var len := Strnlen(buf[1..], n - 1);
      assert buf[..len + 1] == [buf[0]] + buf[1..][..len];
      if n <= |buf| {
        assert buf[..n] == [buf[0]] + buf[1..][..n - 1];
      }
    }
  }

  lemma TextIsName(buf: seq<Byte>)
    requires Terminated(buf)
    ensures IsName(Text(buf))
  {
    StrnlenFacts(buf, COMM_LEN);
    assert buf[..COMM_LEN] == buf;
  }

  // Equality by strncmp is equality of the C strings, whatever follows the terminators.
  lemma {:induction false} StrncmpIsTextEquality(a: seq<Byte>, b: seq<Byte>, n: nat)
    requires |a| >= n && |b| >= n
    ensures Strncmp(a, b, n) == 0 <==> a[..Strnlen(a, n)] == b[..Strnlen(b, n)]
  {
    if n > 0 {
      StrncmpIsTextEquality(a[1..], b[1..], n - 1);
      if a[0] != 0 && b[0] != 0 {
        var i, j := Strnlen(a[1..], n - 1), Strnlen(b[1..], n - 1);
        assert a[..i + 1] == [a[0]] + a[1..][..i];
        assert b[..j + 1] == [b[0]] + b[1..][..j];
        assert a[..i + 1] == b[..j + 1] ==> a[..i + 1][1..] == b[..j + 1][1..];
      } else if a[0] != b[0] {
        assert a[0] != 0 ==> a[..Strnlen(a, n)][0] == a[0];
        assert b[0] != 0 ==> b[..Strnlen(b, n)][0] == b[0];
      }
    }
  }

  // strncpy keeps the string, cut to n bytes.
  lemma {:induction false} StrncpyKeepsText(src: seq<Byte>, n: nat)
    ensures var dst := Strncpy(src, n) + [0];
            && Strnlen(dst, n + 1) == Strnlen(src, n)
            && dst[..Strnlen(dst, n + 1)] == src[..Strnlen(src, n)]
  {
    var dst := Strncpy(src, n) + [0];
    if n > 0 && src != [] && src[0] != 0 {
      StrncpyKeepsText(src[1..], n - 1);
      var rest := Strncpy(src[1..], n - 1) + [0];
      assert dst == [src[0]] + rest;
      assert dst[1..] == rest;
      var len := Strnlen(src[1..], n - 1);
      assert src[..len + 1] == [src[0]] + src[1..][..len];
      assert dst[..len + 1] == [src[0]] + rest[..len];
    }
  }

  // What is stored compares equal to exactly the terminated buffers with the same C string,
  // and these are exactly the ones with the same bytes to hash.
  lemma StoredMatchesText(name: seq<Byte>, probe: seq<Byte>)
    requires Terminated(name) && Terminated(probe)
    ensures Text(Stored(name)) == Text(name) && IsName(Text(name)) && Terminated(Stored(name))
    ensures Strncmp(Stored(name), probe, COMM_LEN) == 0 <==> Text(name) == Text(probe)
  {
    StrncpyKeepsText(name, COMM_LEN - 1);
    TextIsName(name);
    ShortStrnlen(name, COMM_LEN);
    assert Stored(name)[COMM_LEN - 1] == 0;
    StrncmpIsTextEquality(Stored(name), probe, COMM_LEN);
  }

  // A length below the bound does not depend on the bound.
  lemma {:induction false} ShortStrnlen(buf: seq<Byte>, n: nat)
    requires n > 0 && Strnlen(buf, n) < n
    ensures Strnlen(buf, n - 1) == Strnlen(buf, n)
  {
    if n > 1 && buf != [] && buf[0] != 0 {
      ShortStrnlen(buf[1..], n - 1);
    }
  }

  // A user string reaches the registry as its first 15 bytes up to a terminator.
  lemma FromUserText(user: seq<Byte>)
    ensures Terminated(FromUser(user))
    ensures Text(FromUser(user)) == user[..Strnlen(user, COMM_LEN - 1)]
  {
    StrncpyKeepsText(user, COMM_LEN - 1);
    assert FromUser(user)[COMM_LEN - 1] == 0;
  }

  // A name given as it is survives the trip through the command buffer and the node.
  lemma NameRoundTrip(name: seq<Byte>)
    requires IsName(name)
    ensures Text(FromUser(name)) == name && Text(Stored(FromUser(name))) == name
  {
    FullStrnlen(name, COMM_LEN - 1);
    FromUserText(name);
    StoredMatchesText(FromUser(name), FromUser(name));
  }

  lemma {:induction false} FullStrnlen(t: seq<Byte>, n: nat)
    requires |t| <= n && 0 !in t
    ensures Strnlen(t, n) == |t|
  {
    if t != [] {
      FullStrnlen(t[1..], n - 1);
    }
  }

  // The buffers in numbers.
  lemma NameInNumbers(bytes: seq<Byte>)
    ensures IsBuffer(bytes) <==> |bytes| == 16
    ensures IsName(bytes) <==> |bytes| <= 15 && 0 !in bytes
    ensures |NameOf(bytes)| <= 15 && NameOf(bytes) <= bytes
    ensures |NameOf(bytes)| < 15 && |NameOf(bytes)| < |bytes| ==> bytes[|NameOf(bytes)|] == 0
  {
    StrnlenFacts(bytes, COMM_LEN - 1);
  }

  // A name is a string of at most 15 bytes, and all of a terminated buffer's string; it
  // survives a second copy.
  lemma NameFacts(bytes: seq<Byte>)
    ensures IsName(NameOf(bytes))
    ensures Terminated(bytes) ==> NameOf(bytes) == Text(bytes)
    ensures NameOf(NameOf(bytes) + [0]) == NameOf(bytes)
  {
    StrnlenFacts(bytes, COMM_LEN - 1);
    StrnlenFacts(bytes, COMM_LEN);
    if Terminated(bytes) {
      assert bytes[..COMM_LEN] == bytes;
      ShortStrnlen(bytes, COMM_LEN);
    }
    EndedStrnlen(NameOf(bytes), COMM_LEN - 1);
  }

  lemma {:induction false} EndedStrnlen(t: seq<Byte>, n: nat)
    requires |t| <= n && 0 !in t
    ensures Strnlen(t + [0], n) == |t|
  {
    if t != [] {
      EndedStrnlen(t[1..], n - 1);
      assert (t + [0])[1..] == t[1..] + [0];
    }
  }
}
