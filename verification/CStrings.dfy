/** C strings in longer texts, and texts in parts. */
module CStrings {
  const NUL: char := '\0'

  /** The C string at the start of a buffer. */
  function Str(buffer: string): string
  {
    if buffer == "" || buffer[0] == NUL then "" else [buffer[0]] + Str(buffer[1..])
  }

  lemma {:induction false} StrIs(buffer: string, n: nat)
    requires n < |buffer| && NUL !in buffer[..n] && buffer[n] == NUL
    ensures Str(buffer) == buffer[..n]
  {
    if n > 0 {
      assert buffer[1..][..n - 1] == buffer[..n][1..];
      assert forall c :: c in buffer[..n][1..] ==> c in buffer[..n];
      assert buffer[0] == buffer[..n][0];
      StrIs(buffer[1..], n - 1);
    }
  }

  lemma {:induction false} StrWhole(s: string)
    requires NUL !in s
    ensures Str(s) == s
  {
    if s != "" {
      StrWhole(s[1..]);
    }
  }

  /** strchr: the first place of a character, or the length. */
  function Find(s: string, c: char): (i: nat)
    ensures i <= |s|
  {
    if s == "" || s[0] == c then 0 else 1 + Find(s[1..], c)
  }

  lemma {:induction false} FindIs(a: string, c: char, b: string)
    requires c !in a
    ensures Find(a + [c] + b, c) == |a|
  {
    if a != "" {
      assert (a + [c] + b)[1..] == a[1..] + [c] + b;
      FindIs(a[1..], c, b);
    }
  }

  lemma {:induction false} FindNone(a: string, c: char)
    requires c !in a
    ensures Find(a, c) == |a|
  {
    if a != "" {
      FindNone(a[1..], c);
    }
  }

  /** The parts of a text, put together. */
  function Joined(parts: seq<string>): string
  {
    if parts == [] then "" else parts[0] + Joined(parts[1..])
  }

  lemma {:induction false} JoinedAppend(a: seq<string>, b: seq<string>)
    ensures Joined(a + b) == Joined(a) + Joined(b)
  {
    if a == [] {
      assert a + b == b;
    } else {
      assert (a + b)[1..] == a[1..] + b;
      JoinedAppend(a[1..], b);
    }
  }
}
