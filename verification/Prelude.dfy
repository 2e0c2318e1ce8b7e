/** Small vocabulary shared by every model. */
module Prelude {

  datatype Option<+T> = None | Some(value: T)

  datatype Result<+T, +E> = Ok(value: T) | Err(error: E)

  type Byte = x: int | 0 <= x < 256

  /** No element occurs twice. */
  ghost predicate Unique<T>(s: seq<T>) {
    forall i, j | 0 <= i < j < |s| :: s[i] != s[j]
  }

  function Min(a: int, b: int): int {
    if a <= b then a else b
  }

  // ----- Strings

  /** The first place of a character from `from` on, or the end of the text. */
  function IndexOf(text: string, c: char, from: nat): (i: nat)
    requires from <= |text|
    ensures from <= i <= |text|
    ensures i < |text| ==> text[i] == c
    ensures forall k | from <= k < i :: text[k] != c
    decreases |text| - from
  {
    if from == |text| || text[from] == c then from else IndexOf(text, c, from + 1)
  }

  function Decimal(n: nat): string {
    if n < 10 then [('0' as int + n) as char] else Decimal(n / 10) + [('0' as int + n % 10) as char]
  }

  // ----- Bytes

  function Power256(n: nat): nat {
    if n == 0 then 1 else 256 * Power256(n - 1)
  }

  /** The number whose highest byte comes first. */
  function BigEndian(bytes: seq<Byte>): nat {
    if bytes == [] then 0 else 256 * BigEndian(bytes[..|bytes| - 1]) + bytes[|bytes| - 1]
  }

  // ----- Finite sets

  function Below(n: nat): (s: set<int>)
    ensures |s| == n
    ensures forall k :: k in s <==> 0 <= k < n
  {
    if n == 0 then {} else Below(n - 1) + {n - 1}
  }

  lemma Member<T>(s: set<T>) returns (x: T)
    requires s != {}
    ensures x in s
  {
    x :| x in s;
  }

  lemma SubsetSize<T>(part: set<T>, whole: set<T>)
    requires part <= whole
    ensures |part| <= |whole|
  {
    assert whole == part + (whole - part);
  }

  /** A smaller set leaves something of a larger one out. */
  lemma Pigeonhole<T>(larger: set<T>, smaller: set<T>) returns (missed: T)
    requires |smaller| < |larger|
    ensures missed in larger && missed !in smaller
  {
    if larger <= smaller {
      SubsetSize(larger, smaller);
    }
    missed :| missed in larger && missed !in smaller;
  }
}
