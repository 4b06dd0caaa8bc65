/** Cell values as the calling script hands them over, and the placeholder
    escape that `InsertRows` applies before anything is sent to the sheet
    (common.py:87). */
module Values {

  /** A scalar spreadsheet value: a string or an integer. */
  datatype Value = Str(s: string) | Num(n: int)

  /** The placeholder value `'*'`. Only the one-character string compares
      equal to it; a number never does. */
  const STAR: Value := Str("*")

  /** What the placeholder is replaced with. */
  const QUESTION: Value := Str("?")

  /** One step of the list comprehension at common.py:87. */
  function EscapeValue(v: Value): (r: Value)
    ensures r != STAR
    ensures v == STAR ==> r == QUESTION
    ensures v != STAR ==> r == v
  {
    if v == STAR then QUESTION else v
  }

  /** `['?' if x == '*' else x for x in xs]`. */
  function Escape(xs: seq<Value>): (r: seq<Value>)
    ensures |r| == |xs|
  {
    if xs == [] then [] else [EscapeValue(xs[0])] + Escape(xs[1..])
  }

  /** Element `i` of the escaped list is element `i` of the input, with the
      placeholder replaced and nothing else touched. */
  lemma {:induction false} EscapeAt(xs: seq<Value>, i: nat)
    requires i < |xs|
    ensures Escape(xs)[i] == EscapeValue(xs[i])
    ensures xs[i] == STAR ==> Escape(xs)[i] == QUESTION
    ensures xs[i] != STAR ==> Escape(xs)[i] == xs[i]
  {
    if i > 0 {
      EscapeAt(xs[1..], i - 1);
    }
  }

  /** No placeholder survives the escape. */
  lemma {:induction false} EscapeLeavesNoStar(xs: seq<Value>)
    ensures STAR !in Escape(xs)
  {
    if xs != [] {
      EscapeLeavesNoStar(xs[1..]);
    }
  }

  /** A list without placeholders is left as it is. */
  lemma {:induction false} EscapeFixesStarFree(xs: seq<Value>)
    requires STAR !in xs
    ensures Escape(xs) == xs
  {
    if xs != [] {
      assert xs[0] in xs;
      assert STAR !in xs[1..] by {
        forall k | 0 <= k < |xs[1..]| ensures xs[1..][k] != STAR {
          assert xs[1..][k] == xs[k + 1];
        }
      }
      EscapeFixesStarFree(xs[1..]);
      assert xs == [xs[0]] + xs[1..];
    }
  }

  /** Escaping twice gives what escaping once gives. */
  lemma EscapeIdempotent(xs: seq<Value>)
    ensures Escape(Escape(xs)) == Escape(xs)
  {
    EscapeLeavesNoStar(xs);
    EscapeFixesStarFree(Escape(xs));
  }
}
