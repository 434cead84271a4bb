/** String operations the dashboard relies on: lower-casing and substring search. */
module Text {

  /** Lower-casing of one character, restricted to the ASCII letters. */
  function LowerChar(c: char): char
  {
    if 'A' <= c <= 'Z' then (c as int + 32) as char else c
  }

  /** `String.prototype.toLowerCase`, character by character. */
  function Lower(s: string): (r: string)
    ensures |r| == |s|
    ensures forall i :: 0 <= i < |s| ==> r[i] == LowerChar(s[i])
  {
    if s == [] then [] else [LowerChar(s[0])] + Lower(s[1..])
  }

  /** Lower-casing an already lower-cased string changes nothing. */
  lemma LowerIdempotent(s: string)
    ensures Lower(Lower(s)) == Lower(s)
  {
    var once := Lower(s);
    var twice := Lower(once);
    forall i | 0 <= i < |s|
      ensures twice[i] == once[i]
    {
      var c := s[i];
      assert once[i] == LowerChar(c);
    }
  }

  /** Two strings that agree up to the case of each letter lower-case alike. */
  predicate SameUpToCase(a: string, b: string)
  {
    |a| == |b| && forall i :: 0 <= i < |a| ==> LowerChar(a[i]) == LowerChar(b[i])
  }

  lemma {:induction false} SameUpToCaseLowersAlike(a: string, b: string)
    requires SameUpToCase(a, b)
    ensures Lower(a) == Lower(b)
  {
    if a != [] {
      assert SameUpToCase(a[1..], b[1..]) by {
        forall i | 0 <= i < |a| - 1
          ensures LowerChar(a[1..][i]) == LowerChar(b[1..][i])
        {
          assert a[1..][i] == a[i + 1] && b[1..][i] == b[i + 1];
        }
      }
      SameUpToCaseLowersAlike(a[1..], b[1..]);
    }
  }

  /** `hay.includes(needle)`: the needle occurs somewhere in the hay. */
  predicate Contains(hay: string, needle: string)
    ensures Contains(hay, needle) ==> |needle| <= |hay|
    ensures needle == [] ==> Contains(hay, needle)
  {
    needle <= hay || (hay != [] && Contains(hay[1..], needle))
  }

  /** The needle sits in the hay starting at index i. */
  predicate OccursAt(hay: string, needle: string, i: int)
  {
    0 <= i <= |hay| - |needle| && hay[i..i + |needle|] == needle
  }

  /** Contains agrees with the positional definition of a substring. */
  lemma {:induction false} ContainsIffOccurs(hay: string, needle: string)
    ensures Contains(hay, needle) <==> exists i :: OccursAt(hay, needle, i)
  {
    if needle <= hay {
      assert OccursAt(hay, needle, 0);
    } else if hay == [] {
      assert |needle| > 0;
    } else {
      ContainsIffOccurs(hay[1..], needle);
      if exists i :: OccursAt(hay, needle, i) {
        var i :| OccursAt(hay, needle, i);
        assert i != 0;
        assert OccursAt(hay[1..], needle, i - 1);
      }
      if Contains(hay[1..], needle) {
        var j :| OccursAt(hay[1..], needle, j);
        assert OccursAt(hay, needle, j + 1);
      }
    }
  }

  /** Whatever ends a string is contained in it. */
  lemma {:induction false} ContainsSuffix(front: string, needle: string)
    ensures Contains(front + needle, needle)
  {
    if front != [] {
      assert (front + needle)[1..] == front[1..] + needle;
      ContainsSuffix(front[1..], needle);
    }
  }

  /** Whatever sits inside a string is contained in it. */
  lemma {:induction false} ContainsInfix(front: string, needle: string, back: string)
    ensures Contains(front + needle + back, needle)
  {
    if front == [] {
      assert front + needle + back == needle + back;
      assert needle <= needle + back;
    } else {
      assert (front + needle + back)[1..] == front[1..] + needle + back;
      ContainsInfix(front[1..], needle, back);
    }
  }
}
