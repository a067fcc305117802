/**
 * `MrlInput`: a media resource locator wrapped as a player input. It holds one immutable
 * string; the `Path` and `File` factories go through their string forms.
 */
module Mrl {
  import opened Wrappers
  import opened JavaTypes
  import opened JavaFiles

  datatype MrlInput = MrlInput(mrl: string)

  /** What `equals` may be handed: another `MrlInput`, or an input of any other kind. */
  datatype Input = Mrl(input: MrlInput) | OtherInput(description: string)

  const NULL_MESSAGE: string := "MRL specified cannot be null!"

  /** `ofMrl(String)`: `checkNotNull` throws on a null string. */
  function OfMrl(mrl: Option<string>): (r: Result<MrlInput, string>)
    ensures r.Ok? <==> mrl.Some?
    ensures r.Ok? ==> GetInput(r.value) == mrl.value
    ensures r.Err? ==> r.error == NULL_MESSAGE
  {
    match mrl
    case None => Err(NULL_MESSAGE)
    case Some(s) => Ok(MrlInput(s))
  }

  /** `ofMrl(Path)`: the path's `toString`. */
  function OfPath(path: Path): (m: MrlInput)
    ensures OfMrl(Some(path.text)) == Ok(m)
  {
    MrlInput(path.text)
  }

  /** A locator given as `Path.of(s)` reads back as `s` in normal form, and as `s` itself when already normal. */
  lemma OfPathNormalizes(s: string)
    ensures GetInput(OfPath(PathOf(s))) == Normalize(s)
    ensures Normalized(s) ==> GetInput(OfPath(PathOf(s))) == s
  {
    if Normalized(s) {
      NormalizeKeeps(s);
    }
  }

  /** `ofMrl(File)`: the file's `getPath`. */
  function OfFile(file: File): (m: MrlInput)
    ensures OfMrl(Some(file.path)) == Ok(m)
  {
    MrlInput(file.path)
  }

  /** The shared empty input, built once from `""`. */
  const EMPTY_MRL: MrlInput := OfMrl(Some("")).value

  function EmptyMrl(): (m: MrlInput)
    ensures GetInput(m) == ""
    ensures m == EMPTY_MRL
  {
    EMPTY_MRL
  }

  function GetInput(m: MrlInput): string
  {
    m.mrl
  }

  /** `toString`: `{mrl=…}`. */
  function ToString(m: MrlInput): string
  {
    "{mrl=" + m.mrl + "}"
  }

  /** Reads a `toString` form back. */
  function ParseToString(s: string): (r: Option<string>)
    ensures r.Some? ==> |s| == |r.value| + 6
  {
    if |s| >= 6 && s[..5] == "{mrl=" && s[|s| - 1] == '}' then Some(s[5..|s| - 1]) else None
  }

  /** The `toString` form gives the locator back, so distinct inputs print differently. */
  lemma ToStringRoundTrip(m: MrlInput)
    ensures ParseToString(ToString(m)) == Some(m.mrl)
    ensures forall n :: ToString(n) == ToString(m) ==> n == m
  {
    var s := ToString(m);
    assert s[..5] == "{mrl=" && s[5..|s| - 1] == m.mrl;
    forall n | ToString(n) == ToString(m) ensures n == m {
      var t := ToString(n);
      assert t[5..|t| - 1] == n.mrl;
    }
  }

  /** `String.hashCode`, Horner's rule in 32-bit arithmetic over the characters. */
  function StringHash(s: string): (h: int)
    ensures IsInt32(h)
  {
    if |s| == 0 then 0 else WrapInt32(31 * StringHash(s[..|s| - 1]) + s[|s| - 1] as int)
  }

  function Pow31(k: nat): nat
  {
    if k == 0 then 1 else 31 * Pow31(k - 1)
  }

  /** The documented formula `s[0]*31^(n-1) + … + s[n-1]`, without wrap-around. */
  function Polynomial(s: string): int
  {
    if |s| == 0 then 0 else s[0] as int * Pow31(|s| - 1) + Polynomial(s[1..])
  }

  /** Two integers that agree modulo 2^32 narrow to the same `int`. */
  lemma WrapCongruent(a: int, b: int)
    requires (a - b) % TWO_32 == 0
    ensures WrapInt32(a) == WrapInt32(b)
  {
    var k := (a - b) / TWO_32;
    assert a == b + k * TWO_32;
    assert a % TWO_32 == b % TWO_32;
  }

  lemma PolynomialSnoc(s: string, c: char)
    ensures Polynomial(s + [c]) == 31 * Polynomial(s) + c as int
    decreases |s|
  {
    if |s| > 0 {
      assert (s + [c])[1..] == s[1..] + [c];
      PolynomialSnoc(s[1..], c);
    }
  }

  /** `String.hashCode` is the documented polynomial, narrowed to 32 bits. */
  lemma {:induction false} StringHashIsPolynomial(s: string)
    ensures StringHash(s) == WrapInt32(Polynomial(s))
    decreases |s|
  {
    if |s| > 0 {
      var pre := s[..|s| - 1];
      var c := s[|s| - 1];
      StringHashIsPolynomial(pre);
      assert pre + [c] == s;
      PolynomialSnoc(pre, c);
      var h := StringHash(pre);
      var p := Polynomial(pre);
      assert (h - p) % TWO_32 == 0;
      var k := (h - p) / TWO_32;
      assert (31 * h + c as int) - (31 * p + c as int) == (31 * k) * TWO_32;
      WrapCongruent(31 * h + c as int, 31 * p + c as int);
    }
  }

  /** `Objects.hash(mrl)`: `31 * 1 + mrl.hashCode()`, in 32-bit arithmetic. */
  function HashCode(m: MrlInput): (h: int)
    ensures IsInt32(h)
    ensures h == WrapInt32(31 + Polynomial(m.mrl))
  {
    StringHashIsPolynomial(m.mrl);
    WrapCongruent(31 + StringHash(m.mrl), 31 + Polynomial(m.mrl));
    WrapInt32(31 + StringHash(m.mrl))
  }

  /** `equals`: another `MrlInput` with the same string, which then hashes alike. */
  function Equals(m: MrlInput, obj: Option<Input>): (eq: bool)
    ensures eq <==> obj == Some(Mrl(m))
    ensures eq ==> HashCode(obj.value.input) == HashCode(m)
  {
    match obj
    case Some(Mrl(other)) => other.mrl == m.mrl
    case _ => false
  }
}
