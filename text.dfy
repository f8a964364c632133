/** String operations the pipeline relies on: lower-casing, whitespace removal,
    substring search and newline joining/splitting. */
module Text {
  import opened Seqs

  function LowerChar(c: char): char {
    if 'A' <= c <= 'Z' then (c as int + 32) as char else c
  }

  /** `s.toLowerCase()`, restricted to the ASCII letters. */
  function Lower(s: string): (r: string)
    ensures |r| == |s|
  {
    seq(|s|, i requires 0 <= i < |s| => LowerChar(s[i]))
  }

  /** The characters matched by the JavaScript regular-expression class `\s`. */
  predicate IsSpace(c: char) {
    || c == ' ' || c == '\t' || c == '\n' || c == '\r'
    || c == '\U{000B}' || c == '\U{000C}' || c == '\U{00A0}' || c == '\U{1680}'
    || ('\U{2000}' <= c <= '\U{200A}')
    || c == '\U{2028}' || c == '\U{2029}' || c == '\U{202F}' || c == '\U{205F}'
    || c == '\U{3000}' || c == '\U{FEFF}'
  }

  predicate NotSpace(c: char) {
    !IsSpace(c)
  }

  /** `s.replace(/\s+/g, "")`. */
  function StripSpace(s: string): string {
    Filter(s, NotSpace)
  }

  /** The comparison key for person names: lower-case, then every whitespace character removed. */
  function Normalize(s: string): (r: string)
    ensures forall c :: c in r ==> !IsSpace(c) && !('A' <= c <= 'Z')
    ensures forall c :: c in s && !IsSpace(c) && !('A' <= c <= 'Z') ==> c in r
  {
    var low := Lower(s);
    FilterMembership(low, NotSpace);
    assert forall c :: c in s && !IsSpace(c) && !('A' <= c <= 'Z') ==>
      c in low by {
      forall c | c in s && !IsSpace(c) && !('A' <= c <= 'Z') ensures c in low {
        var i :| 0 <= i < |s| && s[i] == c;
        assert low[i] == c;
      }
    }
    StripSpace(low)
  }

  /** Normalisation works character by character: a whitespace character disappears and
      any other character is lower-cased in place. */
  lemma NormalizeChar(c: char)
    ensures Normalize([c]) == if IsSpace(c) then [] else [LowerChar(c)]
  {
  }

  lemma NormalizeAppend(a: string, b: string)
    ensures Normalize(a + b) == Normalize(a) + Normalize(b)
  {
    assert Lower(a + b) == Lower(a) + Lower(b);
    FilterAppend(Lower(a), Lower(b), NotSpace);
  }

  lemma LowerCharFacts(c: char)
    ensures IsSpace(LowerChar(c)) == IsSpace(c)
    ensures LowerChar(LowerChar(c)) == LowerChar(c)
  {
  }

  /** Normalising twice is normalising once. */
  lemma {:induction false} NormalizeIdempotent(s: string)
    ensures Normalize(Normalize(s)) == Normalize(s)
  {
    if s != [] {
      var init, c := s[..|s| - 1], s[|s| - 1];
      InitLast(s);
      NormalizeIdempotent(init);
      NormalizeAppend(init, [c]);
      NormalizeAppend(Normalize(init), Normalize([c]));
      NormalizeChar(c);
      if !IsSpace(c) {
        LowerCharFacts(c);
        NormalizeChar(LowerChar(c));
      } else {
        assert Normalize([]) == [];
      }
    }
  }

  /** Names that differ only in the case of their ASCII letters normalise alike. */
  lemma {:induction false} NormalizeIgnoresCase(s: string)
    ensures Normalize(Lower(s)) == Normalize(s)
  {
    if s != [] {
      var init, c := s[..|s| - 1], s[|s| - 1];
      InitLast(s);
      NormalizeIgnoresCase(init);
      assert Lower(s) == Lower(init) + [LowerChar(c)];
      NormalizeAppend(Lower(init), [LowerChar(c)]);
      NormalizeAppend(init, [c]);
      NormalizeChar(c);
      NormalizeChar(LowerChar(c));
      LowerCharFacts(c);
    }
  }

  /** Removing a whitespace character anywhere does not change the normalised name. */
  lemma NormalizeIgnoresSpace(a: string, c: char, b: string)
    requires IsSpace(c)
    ensures Normalize(a + [c] + b) == Normalize(a + b)
  {
    NormalizeAppend(a + [c], b);
    NormalizeAppend(a, [c]);
    NormalizeAppend(a, b);
    NormalizeChar(c);
  }

  /** "Jane Doe" written by a commenter matches the assignee "janedoe". */
  lemma NormalizeExample()
    ensures Normalize("Jane Doe") == Normalize("janedoe")
  {
    NormalizeIgnoresSpace("Jane", ' ', "Doe");
    assert "Jane" + [' '] + "Doe" == "Jane Doe";
    assert "Jane" + "Doe" == "JaneDoe";
    NormalizeIgnoresCase("JaneDoe");
    assert Lower("JaneDoe") == "janedoe";
  }

  /** `s.includes(sub)`. */
  predicate Contains(s: string, sub: string)
    decreases |s|
  {
    sub <= s || (|s| > 0 && Contains(s[1..], sub))
  }

  /** `lines.join(sep)`. */
  function Join(lines: seq<string>, sep: char): string {
    if |lines| == 0 then ""
    else if |lines| == 1 then lines[0]
    else lines[0] + [sep] + Join(lines[1..], sep)
  }

  /** `s.split(sep)`: the maximal runs of characters between separators. */
  function Split(s: string, sep: char): (r: seq<string>)
    ensures |r| >= 1
    ensures forall k :: 0 <= k < |r| ==> sep !in r[k]
  {
    if s == [] then [""]
    else
      var rest := Split(s[1..], sep);
      if s[0] == sep then [""] + rest else [[s[0]] + rest[0]] + rest[1..]
  }

  lemma SplitCons(c: char, s: string, sep: char)
    requires c != sep
    ensures Split([c] + s, sep) == [[c] + Split(s, sep)[0]] + Split(s, sep)[1..]
  {
    assert ([c] + s)[1..] == s;
  }

  lemma {:induction false} SplitPrefix(a: string, rest: string, sep: char)
    requires sep !in a
    ensures Split(a + rest, sep) == [a + Split(rest, sep)[0]] + Split(rest, sep)[1..]
  {
    var r := Split(rest, sep);
    if a != [] {
      var c, b := a[0], a[1..];
      assert c in a;
      calc {
        Split(a + rest, sep);
      == { assert a + rest == [c] + (b + rest); }
        Split([c] + (b + rest), sep);
      == { SplitCons(c, b + rest, sep); }
        [[c] + Split(b + rest, sep)[0]] + Split(b + rest, sep)[1..];
      == { SplitPrefix(b, rest, sep); }
        [[c] + (b + r[0])] + r[1..];
      == { assert [c] + (b + r[0]) == a + r[0]; }
        [a + r[0]] + r[1..];
      }
    } else {
      assert a + rest == rest;
      assert a + r[0] == r[0];
      assert r == [r[0]] + r[1..];
    }
  }

  lemma SplitAtSeparator(tail: string, sep: char)
    ensures Split([sep] + tail, sep) == [""] + Split(tail, sep)
  {
    assert ([sep] + tail)[1..] == tail;
  }

  lemma {:induction false} SplitNoSeparator(a: string, sep: char)
    requires sep !in a
    ensures Split(a, sep) == [a]
  {
    if a != [] {
      SplitNoSeparator(a[1..], sep);
      assert [a[0]] + a[1..] == a;
    }
  }

  /** Splitting inverts joining when no line holds the separator. */
  lemma {:induction false} SplitJoin(lines: seq<string>, sep: char)
    requires |lines| > 0
    requires forall k :: 0 <= k < |lines| ==> sep !in lines[k]
    ensures Split(Join(lines, sep), sep) == lines
  {
    if |lines| == 1 {
      SplitNoSeparator(lines[0], sep);
    } else {
      var head := lines[0];
      var tail := Join(lines[1..], sep);
      SplitJoin(lines[1..], sep);
      SplitAtSeparator(tail, sep);
      SplitPrefix(head, [sep] + tail, sep);
      var r := Split([sep] + tail, sep);
      assert Join(lines, sep) == head + ([sep] + tail);
      assert r[0] == "" && r[1..] == lines[1..];
      assert head + r[0] == head;
      assert lines == [head] + lines[1..];
    }
  }
}
