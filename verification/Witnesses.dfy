/** Concrete functions that satisfy the laws assumed of hashing and JSON encoding. They are
    used only as witnesses of the abstract types; no other module depends on their bodies. */
module Witnesses {

  function Ones(n: nat): string {
    seq(n, _ => '1')
  }

  /** A number in unary, closed by a zero. */
  function Unary(n: nat): string {
    Ones(n) + ['0']
  }

  lemma UnaryPrefix(m: nat, x: string, n: nat, y: string)
    requires Unary(m) + x == Unary(n) + y
    ensures m == n && x == y
  {
    var w := Unary(m) + x;
    assert w[m] == '0' && w[n] == '0';
    assert x == w[m + 1..] == y;
  }

  function Digest(s: string): string {
    ['0'] + Codes(s)
  }

  function Codes(s: string): string {
    if s == [] then [] else Unary(s[0] as int) + Codes(s[1..])
  }

  lemma {:induction false} CodesInjective(x: string, y: string)
    requires Codes(x) == Codes(y)
    ensures x == y
  {
    if x != [] && y != [] {
      UnaryPrefix(x[0] as int, Codes(x[1..]), y[0] as int, Codes(y[1..]));
      CodesInjective(x[1..], y[1..]);
      assert x == [x[0]] + x[1..] && y == [y[0]] + y[1..];
    }
  }

  lemma DigestInjective(x: string, y: string)
    requires Digest(x) == Digest(y)
    ensures x == y
  {
    assert Codes(x) == Digest(x)[1..] && Codes(y) == Digest(y)[1..];
    CodesInjective(x, y);
  }

  lemma {:induction false} CodesBinary(s: string)
    ensures forall i :: 0 <= i < |Codes(s)| ==> Codes(s)[i] == '0' || Codes(s)[i] == '1'
  {
    if s != [] {
      CodesBinary(s[1..]);
    }
  }

  lemma DigestBinary(s: string)
    ensures Digest(s) != "" && forall i :: 0 <= i < |Digest(s)| ==> Digest(s)[i] == '0' || Digest(s)[i] == '1'
  {
    CodesBinary(s);
  }

  /** A list of fields, each preceded by its length in unary. */
  function Pack(fields: seq<string>): string {
    if fields == [] then [] else Unary(|fields[0]|) + fields[0] + Pack(fields[1..])
  }

  lemma {:induction false} PackInjective(a: seq<string>, b: seq<string>)
    requires Pack(a) == Pack(b)
    ensures a == b
  {
    if a != [] && b != [] {
      assert Pack(a) == Unary(|a[0]|) + (a[0] + Pack(a[1..]));
      assert Pack(b) == Unary(|b[0]|) + (b[0] + Pack(b[1..]));
      UnaryPrefix(|a[0]|, a[0] + Pack(a[1..]), |b[0]|, b[0] + Pack(b[1..]));
      assert a[0] == (a[0] + Pack(a[1..]))[..|a[0]|] == b[0];
      assert Pack(a[1..]) == (a[0] + Pack(a[1..]))[|a[0]|..] == Pack(b[1..]);
      PackInjective(a[1..], b[1..]);
      assert a == [a[0]] + a[1..] && b == [b[0]] + b[1..];
    }
  }

  function IntText(n: int): string {
    if n < 0 then ['-'] + Ones(-n) else ['+'] + Ones(n)
  }

  lemma IntTextInjective(m: int, n: int)
    requires IntText(m) == IntText(n)
    ensures m == n
  {
    assert IntText(m)[0] == IntText(n)[0];
    assert |IntText(m)| == |IntText(n)|;
  }
}
