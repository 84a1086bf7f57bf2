/** The string builtins the game relies on, restricted to ASCII:
    `str.isalpha`, `str.lower`, `' '.join` and `str.replace(' ', '')`. */
module Text {

  /** `c.isalpha()` for an ASCII character. */
  predicate IsAlpha(c: char)
    ensures IsAlpha(c) ==> c != '_' && c != ' '
  {
    'a' <= c <= 'z' || 'A' <= c <= 'Z'
  }

  predicate IsUpper(c: char) {
    'A' <= c <= 'Z'
  }

  /** `c.lower()` for an ASCII character; every other character is left alone. */
  function Lower(c: char): (r: char)
    ensures !IsUpper(r)
    ensures IsAlpha(r) <==> IsAlpha(c)
    ensures !IsUpper(c) ==> r == c
    ensures IsUpper(c) ==> r as int - 'a' as int == c as int - 'A' as int
  {
    if IsUpper(c) then (c as int - 'A' as int + 'a' as int) as char else c
  }

  /** `s.lower()`: each character lower-cased in place, so the result has the
      same length, no upper-case letter, and letters exactly where `s` has them. */
  function LowerStr(s: string): (r: string)
    ensures |r| == |s|
    ensures forall i :: 0 <= i < |r| ==> !IsUpper(r[i])
    ensures forall i :: 0 <= i < |r| ==> (IsAlpha(r[i]) <==> IsAlpha(s[i]))
    ensures forall i :: 0 <= i < |s| && !IsUpper(s[i]) ==> r[i] == s[i]
    ensures forall i :: 0 <= i < |s| ==> r[i] == Lower(s[i])
  {
    seq(|s|, i requires 0 <= i < |s| => Lower(s[i]))
  }

  /** `' '.join(cs)` for a list of one-character strings: the symbols
      separated by single spaces. */
  function Join(cs: seq<char>): (r: string)
    ensures |r| == if cs == [] then 0 else 2 * |cs| - 1
  {
    if |cs| <= 1 then cs else [cs[0], ' '] + Join(cs[1..])
  }

  /** `s.replace(' ', '')`: every space removed, everything else kept in order. */
  function RemoveSpaces(s: string): (r: string)
    ensures |r| <= |s|
    ensures ' ' !in r
  {
    if s == [] then []
    else (if s[0] == ' ' then [] else [s[0]]) + RemoveSpaces(s[1..])
  }

  predicate NoSpaces(cs: seq<char>) {
    forall i :: 0 <= i < |cs| ==> cs[i] != ' '
  }

  /** Symbol i of the joined string sits at position 2*i, and a single space
      sits between two neighbouring symbols. */
  lemma {:induction false} JoinAt(cs: seq<char>, i: nat)
    requires i < |cs|
    ensures Join(cs)[2 * i] == cs[i]
    ensures i + 1 < |cs| ==> Join(cs)[2 * i + 1] == ' '
  {
    if i > 0 {
      JoinAt(cs[1..], i - 1);
    }
  }

  /** A character other than the separator occurs in the joined string
      exactly when it is one of the symbols. */
  lemma {:induction false} JoinContains(cs: seq<char>, c: char)
    requires c != ' '
    ensures c in Join(cs) <==> c in cs
  {
    if |cs| > 1 {
      JoinContains(cs[1..], c);
      assert Join(cs) == [cs[0], ' '] + Join(cs[1..]);
      assert cs == [cs[0]] + cs[1..];
    }
  }

  /** A string laid out as a join (symbols at even positions, single spaces
      between them) is that join. */
  lemma JoinLayout(cs: seq<char>, d: string)
    requires |d| == if cs == [] then 0 else 2 * |cs| - 1
    requires forall i :: 0 <= i < |cs| ==> d[2 * i] == cs[i]
    requires forall i :: 0 <= i && i + 1 < |cs| ==> d[2 * i + 1] == ' '
    ensures Join(cs) == d
  {
    forall k | 0 <= k < |d| ensures Join(cs)[k] == d[k] {
      JoinAt(cs, k / 2);
    }
  }

  /** Removing spaces from a string that has none changes nothing. */
  lemma {:induction false} RemoveSpacesNoSpaces(s: string)
    requires NoSpaces(s)
    ensures RemoveSpaces(s) == s
  {
    if s != [] {
      RemoveSpacesNoSpaces(s[1..]);
    }
  }

  /** Every character left after removing spaces comes from the input. */
  lemma {:induction false} RemoveSpacesFrom(s: string, k: nat)
    requires k < |RemoveSpaces(s)|
    ensures RemoveSpaces(s)[k] in s
  {
    if s[0] == ' ' {
      RemoveSpacesFrom(s[1..], k);
    } else if k > 0 {
      RemoveSpacesFrom(s[1..], k - 1);
    }
  }

  /** Removing spaces works piece by piece. */
  lemma {:induction false} RemoveSpacesAppend(a: string, b: string)
    ensures RemoveSpaces(a + b) == RemoveSpaces(a) + RemoveSpaces(b)
  {
    if a == [] {
      assert a + b == b;
    } else {
      var head := if a[0] == ' ' then [] else [a[0]];
      assert (a + b)[0] == a[0] && (a + b)[1..] == a[1..] + b;
      calc {
        RemoveSpaces(a + b);
        head + RemoveSpaces(a[1..] + b);
        { RemoveSpacesAppend(a[1..], b); }
        head + (RemoveSpaces(a[1..]) + RemoveSpaces(b));
        (head + RemoveSpaces(a[1..])) + RemoveSpaces(b);
        RemoveSpaces(a) + RemoveSpaces(b);
      }
    }
  }

  /** The separators of a join vanish when its spaces are removed. */
  lemma {:induction false} StripJoinSeparators(cs: seq<char>)
    ensures RemoveSpaces(Join(cs)) == RemoveSpaces(cs)
  {
    if |cs| > 1 {
      calc {
        RemoveSpaces(Join(cs));
        RemoveSpaces([cs[0], ' '] + Join(cs[1..]));
        { RemoveSpacesAppend([cs[0], ' '], Join(cs[1..])); }
        RemoveSpaces([cs[0], ' ']) + RemoveSpaces(Join(cs[1..]));
        { RemoveSpacesAppend([cs[0]], [' ']); assert [cs[0], ' '] == [cs[0]] + [' ']; }
        RemoveSpaces([cs[0]]) + RemoveSpaces(Join(cs[1..]));
        { StripJoinSeparators(cs[1..]); }
        RemoveSpaces([cs[0]]) + RemoveSpaces(cs[1..]);
        { RemoveSpacesAppend([cs[0]], cs[1..]); assert cs == [cs[0]] + cs[1..]; }
        RemoveSpaces(cs);
      }
    }
  }

  /** Stripping the spaces from a join of non-space symbols gives the symbols back. */
  lemma {:induction false} StripJoin(cs: seq<char>)
    requires NoSpaces(cs)
    ensures RemoveSpaces(Join(cs)) == cs
  {
    StripJoinSeparators(cs);
    RemoveSpacesNoSpaces(cs);
  }
}
