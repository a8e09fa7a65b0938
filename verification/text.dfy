/** The two JavaScript string operations the server leans on everywhere:
    `String.prototype.trim` and `String.prototype.split` with a one-character
    separator. */
module Text {

  /** JavaScript's WhiteSpace and LineTerminator code points: exactly what
      `trim` removes and what `parseInt` skips before the number. */
  predicate IsSpace(c: char) {
    || c == '\t' || c == '\n' || c == '\U{000B}' || c == '\U{000C}' || c == '\r'
    || c == ' ' || c == '\U{00A0}' || c == '\U{1680}'
    || ('\U{2000}' <= c <= '\U{200A}')
    || c == '\U{2028}' || c == '\U{2029}' || c == '\U{202F}' || c == '\U{205F}'
    || c == '\U{3000}' || c == '\U{FEFF}'
  }

  predicate AllSpace(s: string) {
    forall i :: 0 <= i < |s| ==> IsSpace(s[i])
  }

  /** Neither end of `s` is a space. */
  predicate Tight(s: string) {
    s == [] || (!IsSpace(s[0]) && !IsSpace(s[|s| - 1]))
  }

  predicate StartsWith(s: string, prefix: string) {
    |prefix| <= |s| && s[..|prefix|] == prefix
  }

  /** How many spaces `s` starts with. */
  function LeadingSpaces(s: string): (n: nat)
    ensures n <= |s|
  {
    if |s| > 0 && IsSpace(s[0]) then 1 + LeadingSpaces(s[1..]) else 0
  }

  /** The leading run is all space and stops before a non-space. */
  lemma {:induction false} LeadingSpacesShape(s: string)
    ensures AllSpace(s[..LeadingSpaces(s)])
    ensures LeadingSpaces(s) == |s| || !IsSpace(s[LeadingSpaces(s)])
    decreases |s|
  {
    if |s| > 0 && IsSpace(s[0]) {
      LeadingSpacesShape(s[1..]);
      var n := LeadingSpaces(s);
      assert forall i :: 1 <= i < n ==> s[..n][i] == s[1..][..n - 1][i - 1];
    }
  }

  /** Drops the leading spaces (`trimStart`). */
  function TrimStart(s: string): string {
    s[LeadingSpaces(s)..]
  }

  /** Where the trailing spaces of `s` begin. */
  function TrailingStart(s: string): (n: nat)
    ensures n <= |s|
  {
    if |s| > 0 && IsSpace(s[|s| - 1]) then TrailingStart(s[..|s| - 1]) else |s|
  }

  /** The trailing run is all space and starts after a non-space. */
  lemma {:induction false} TrailingStartShape(s: string)
    ensures AllSpace(s[TrailingStart(s)..])
    ensures TrailingStart(s) == 0 || !IsSpace(s[TrailingStart(s) - 1])
    decreases |s|
  {
    if |s| > 0 && IsSpace(s[|s| - 1]) {
      var init := s[..|s| - 1];
      TrailingStartShape(init);
      var n := TrailingStart(s);
      assert forall i :: n <= i < |s| - 1 ==> s[i] == init[i];
    }
  }

  /** Drops the trailing spaces (`trimEnd`). */
  function TrimEnd(s: string): string {
    s[..TrailingStart(s)]
  }

  /** `s.trim()`. */
  function Trim(s: string): string {
    TrimEnd(TrimStart(s))
  }

  /** What `trim` leaves is a slice of the text, no longer than it, with no
      space at either end; what it cut off on each side is all space. */
  lemma TrimShape(s: string)
    ensures |Trim(s)| <= |s|
    ensures Tight(Trim(s))
    ensures AllSpace(s[..LeadingSpaces(s)])
    ensures AllSpace(TrimStart(s)[TrailingStart(TrimStart(s))..])
  {
    var t := TrimStart(s);
    LeadingSpacesShape(s);
    TrailingStartShape(t);
    var r := Trim(s);
    if r != [] {
      assert r[0] == t[0];
      LeadingSpacesShape(s);
    }
  }

  /** Trimming keeps a slice of the text, so it adds no character. */
  lemma TrimWithin(s: string)
    ensures forall c :: c in Trim(s) ==> c in s
  {
  }

  /** Trimming cuts exactly the space padding around a tight core. */
  lemma {:induction false} TrimPadded(pre: string, core: string, post: string)
    requires AllSpace(pre) && AllSpace(post) && Tight(core)
    ensures Trim(pre + core + post) == core
  {
    if core == [] {
      assert pre + core + post == (pre + post) + [];
      TrimStartPadded(pre + post, []);
    } else {
      TrimStartPadded(pre, core + post);
      assert TrimStart(pre + core + post) == core + post by {
        assert pre + core + post == pre + (core + post);
      }
      TrimEndPadded(core, post);
    }
  }

  lemma {:induction false} TrimStartPadded(pre: string, rest: string)
    requires AllSpace(pre) && (rest == [] || !IsSpace(rest[0]))
    ensures TrimStart(pre + rest) == rest
    decreases |pre|
  {
    if |pre| > 0 {
      assert (pre + rest)[1..] == pre[1..] + rest;
      TrimStartPadded(pre[1..], rest);
    } else {
      assert pre + rest == rest;
    }
  }

  lemma {:induction false} TrimEndPadded(core: string, post: string)
    requires AllSpace(post) && Tight(core)
    ensures TrimEnd(core + post) == core
    decreases |post|
  {
    if |post| > 0 {
      assert (core + post)[..|core + post| - 1] == core + post[..|post| - 1];
      TrimEndPadded(core, post[..|post| - 1]);
    } else {
      assert core + post == core;
    }
  }

  /** Trimming twice is trimming once. */
  lemma TrimIdempotent(s: string)
    ensures Trim(Trim(s)) == Trim(s)
  {
    TrimShape(s);
    TrimPadded([], Trim(s), []);
    assert [] + Trim(s) + [] == Trim(s);
  }

  /** Glues `parts` back together with `sep` between neighbours
      (`Array.prototype.join`). */
  function Join(parts: seq<string>, sep: char): string
    requires |parts| >= 1
  {
    if |parts| == 1 then parts[0] else parts[0] + [sep] + Join(parts[1..], sep)
  }

  /** `s.split(sep)` for a one-character separator: cut at every
      separator, so there is always at least one piece. */
  function Split(s: string, sep: char): (r: seq<string>)
    ensures |r| >= 1
  {
    if |s| == 0 then [""]
    else
      var rest := Split(s[1..], sep);
      if s[0] == sep then [""] + rest
      else [[s[0]] + rest[0]] + rest[1..]
  }

  /** No piece of a split holds the separator, and joining the pieces with
      the separator gives the text back. */
  lemma {:induction false} SplitPieces(s: string, sep: char)
    ensures forall i :: 0 <= i < |Split(s, sep)| ==> sep !in Split(s, sep)[i]
    ensures Join(Split(s, sep), sep) == s
    decreases |s|
  {
    if |s| > 0 {
      var rest := Split(s[1..], sep);
      SplitPieces(s[1..], sep);
      var r := Split(s, sep);
      if s[0] == sep {
        assert r == [""] + rest;
        assert r[1..] == rest;
        assert s == [] + [sep] + s[1..];
      } else {
        assert r == [[s[0]] + rest[0]] + rest[1..];
        assert r[1..] == rest[1..];
        assert |rest| > 1 ==> rest == [rest[0]] + rest[1..];
        assert r[0] == [s[0]] + rest[0];
        forall i | 0 <= i < |r| ensures sep !in r[i] {
          if i > 0 { assert r[i] == rest[i]; }
        }
        if |rest| > 1 {
          assert Join(r, sep) == r[0] + [sep] + Join(rest[1..], sep);
          assert Join(rest, sep) == rest[0] + [sep] + Join(rest[1..], sep);
        }
      }
    }
  }

  lemma {:induction false} JoinAppend(a: seq<string>, b: seq<string>, sep: char)
    requires |a| >= 1 && |b| >= 1
    ensures Join(a + b, sep) == Join(a, sep) + [sep] + Join(b, sep)
    decreases |a|
  {
    if |a| == 1 {
      assert (a + b)[1..] == b;
    } else {
      assert (a + b)[1..] == a[1..] + b;
      JoinAppend(a[1..], b, sep);
    }
  }

  /** Splitting undoes joining when no piece holds the separator. */
  lemma {:induction false} SplitJoin(parts: seq<string>, sep: char)
    requires |parts| >= 1
    requires forall i :: 0 <= i < |parts| ==> sep !in parts[i]
    ensures Split(Join(parts, sep), sep) == parts
    decreases |parts|, |parts[0]|
  {
    var p := parts[0];
    if |p| == 0 {
      if |parts| == 1 {
      } else {
        var tail := Join(parts[1..], sep);
        assert Join(parts, sep) == [sep] + tail;
        assert ([sep] + tail)[1..] == tail;
        SplitJoin(parts[1..], sep);
        assert parts == [""] + parts[1..];
      }
    } else {
      var shorter := [p[1..]] + parts[1..];
      assert shorter[1..] == parts[1..];
      assert forall i :: 0 <= i < |shorter| ==> sep !in shorter[i] by {
        forall i | 0 <= i < |shorter| ensures sep !in shorter[i] {
          if i == 0 {
            assert forall c :: c in p[1..] ==> c in p;
          } else {
            assert shorter[i] == parts[i];
          }
        }
      }
      SplitJoin(shorter, sep);
      var j := Join(parts, sep);
      assert j == [p[0]] + Join(shorter, sep) by {
        if |parts| == 1 {
          assert p == [p[0]] + p[1..];
        } else {
          assert p == [p[0]] + p[1..];
          assert j == p + [sep] + Join(parts[1..], sep);
        }
      }
      assert j[0] == p[0] && j[0] != sep;
      assert j[1..] == Join(shorter, sep);
      assert p == [p[0]] + p[1..];
      assert parts == [p] + parts[1..];
    }
  }

  /** A separator in the input splits the result into the pieces of its two
      sides. */
  lemma SplitAround(a: string, b: string, sep: char)
    ensures Split(a + [sep] + b, sep) == Split(a, sep) + Split(b, sep)
  {
    var pa, pb := Split(a, sep), Split(b, sep);
    SplitPieces(a, sep);
    SplitPieces(b, sep);
    JoinAppend(pa, pb, sep);
    assert forall i :: 0 <= i < |pa + pb| ==> sep !in (pa + pb)[i] by {
      forall i | 0 <= i < |pa + pb| ensures sep !in (pa + pb)[i] {
        if i < |pa| { assert (pa + pb)[i] == pa[i]; } else { assert (pa + pb)[i] == pb[i - |pa|]; }
      }
    }
    SplitJoin(pa + pb, sep);
  }

  /** Three separator-free texts joined by the separator split back into
      those three. */
  lemma SplitThree(a: string, b: string, c: string, sep: char)
    requires sep !in a && sep !in b && sep !in c
    ensures Split(a + [sep] + b + [sep] + c, sep) == [a, b, c]
  {
    SplitWithout(a, sep);
    SplitWithout(b, sep);
    SplitWithout(c, sep);
    SplitAround(b, c, sep);
    assert a + [sep] + b + [sep] + c == a + [sep] + (b + [sep] + c);
    SplitAround(a, b + [sep] + c, sep);
  }

  /** Every line followed by the separator (`out += line + "\n"`). */
  function Terminated(lines: seq<string>, sep: char): string {
    if |lines| == 0 then []
    else Terminated(lines[..|lines| - 1], sep) + lines[|lines| - 1] + [sep]
  }

  /** Terminating every line is joining them and adding one separator. */
  lemma {:induction false} TerminatedIsJoin(lines: seq<string>, sep: char)
    requires |lines| > 0
    ensures Terminated(lines, sep) == Join(lines, sep) + [sep]
    decreases |lines|
  {
    var init := lines[..|lines| - 1];
    if |init| > 0 {
      TerminatedIsJoin(init, sep);
      assert lines == init + [lines[|lines| - 1]];
      JoinAppend(init, [lines[|lines| - 1]], sep);
    }
  }

  /** Splitting terminated lines gives the lines back and one empty piece
      after the last separator. */
  lemma SplitTerminated(lines: seq<string>, sep: char)
    requires |lines| > 0
    requires forall i :: 0 <= i < |lines| ==> sep !in lines[i]
    ensures Split(Terminated(lines, sep), sep) == lines + [""]
  {
    TerminatedIsJoin(lines, sep);
    SplitJoin(lines, sep);
    SplitAround(Join(lines, sep), "", sep);
    assert Join(lines, sep) + [sep] + "" == Terminated(lines, sep);
  }

  /** A string without the separator is one piece. */
  lemma SplitWithout(s: string, sep: char)
    requires sep !in s
    ensures Split(s, sep) == [s]
  {
    SplitJoin([s], sep);
  }

  /** The first piece of a split is the text up to the first separator,
      or all of it when there is none. */
  lemma SplitHead(s: string, sep: char)
    ensures StartsWith(s, Split(s, sep)[0])
    ensures |Split(s, sep)[0]| == |s| || s[|Split(s, sep)[0]|] == sep
  {
  }

  /** `Trim` applied to every element (`.map(s => s.trim())`). */
  function TrimAll(parts: seq<string>): seq<string> {
    seq(|parts|, i requires 0 <= i < |parts| => Trim(parts[i]))
  }
}
