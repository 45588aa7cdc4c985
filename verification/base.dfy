/** Small shared vocabulary: optional values, results carrying an error,
    ASCII case folding and the "subsequence of" relation used by the
    filtering operations of the model. */
module Base {

  datatype Option<+T> = None | Some(value: T) {
    /** The value, or `default` when there is none (Python's `d.get(k, default)`). */
    function GetOr(default: T): T {
      match this
      case Some(v) => v
      case None => default
    }
  }

  datatype Result<+T, +E> = Ok(value: T) | Err(error: E)

  /** Python's `str(x)` of an optional string: `None` prints as "None". */
  function Show(s: Option<string>): string {
    match s
    case Some(v) => v
    case None => "None"
  }

  /** ASCII lower-casing of one character (Python's `str.lower` restricted to ASCII). */
  function LowerChar(c: char): (d: char)
    ensures 'A' <= c <= 'Z' ==> 'a' <= d <= 'z'
    ensures !('A' <= c <= 'Z') ==> d == c
  {
    if 'A' <= c <= 'Z' then (c as int + 32) as char else c
  }

  function Lower(s: string): (r: string)
    ensures |r| == |s|
    ensures forall i :: 0 <= i < |s| ==> r[i] == LowerChar(s[i])
  {
    if s == [] then [] else [LowerChar(s[0])] + Lower(s[1..])
  }

  /** `a` can be obtained from `b` by deleting elements: the order of `b` is kept. */
  predicate IsSubsequence<T(==)>(a: seq<T>, b: seq<T>)
    decreases |b|
  {
    if a == [] then true
    else if b == [] then false
    else if a[0] == b[0] then IsSubsequence(a[1..], b[1..])
    else IsSubsequence(a, b[1..])
  }

  /** Dropping the head of a subsequence keeps it a subsequence. */
  lemma {:induction false} SubsequenceTail<T>(a: seq<T>, b: seq<T>)
    requires a != [] && IsSubsequence(a, b)
    ensures IsSubsequence(a[1..], b)
    decreases |b|, 0
  {
    if b == [] {
    } else if a[0] == b[0] {
      SubsequenceDropFront(a[1..], b[1..], b[0]);
    } else {
      SubsequenceTail(a, b[1..]);
      SubsequenceDropFront(a[1..], b[1..], b[0]);
    }
  }

  /** Putting an element in front of the larger sequence keeps the relation. */
  lemma {:induction false} SubsequenceDropFront<T>(a: seq<T>, b: seq<T>, x: T)
    requires IsSubsequence(a, b)
    ensures IsSubsequence(a, [x] + b)
    decreases |b|, 1
  {
    assert ([x] + b)[1..] == b;
    if a != [] && a[0] == x {
      SubsequenceTail(a, b);
    }
  }

  /** Extending both sequences at the end, or only the larger one, keeps the relation. */
  lemma {:induction false} SubsequenceSnoc<T>(a: seq<T>, b: seq<T>, x: T)
    requires IsSubsequence(a, b)
    ensures IsSubsequence(a + [x], b + [x])
    ensures IsSubsequence(a, b + [x])
    decreases |b|
  {
    if b == [] {
      assert a == [];
      assert ([x] + [])[1..] == [];
    } else {
      assert (b + [x])[1..] == b[1..] + [x];
      if a == [] {
        SubsequenceSnoc(a, b[1..], x);
      } else if a[0] == b[0] {
        SubsequenceSnoc(a[1..], b[1..], x);
        assert (a + [x])[1..] == a[1..] + [x];
      } else {
        SubsequenceSnoc(a, b[1..], x);
      }
    }
  }
}
