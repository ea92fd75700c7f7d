/**
 * The two string operations of JavaScript that the handlers use to turn a comma-separated
 * request field into a list: `String.prototype.split` with a one-character separator and
 * `String.prototype.trim`.
 */
module Text {

  /**
   * ECMAScript WhiteSpace and LineTerminator code points: what `trim` removes from both ends.
   */
  predicate IsWhitespace(c: char) {
    || c == '\t' || c == '\n' || c == '\U{000B}' || c == '\U{000C}' || c == '\r' || c == ' '
    || c == '\U{00A0}' || c == '\U{1680}' || ('\U{2000}' <= c <= '\U{200A}')
    || c == '\U{2028}' || c == '\U{2029}' || c == '\U{202F}' || c == '\U{205F}'
    || c == '\U{3000}' || c == '\U{FEFF}'
  }

  /**
   * `s.split(sep)`: the maximal pieces of `s` between occurrences of `sep`. There is always at
   * least one piece; the empty string splits into one empty piece.
   */
  function Split(s: string, sep: char): (r: seq<string>)
    ensures |r| >= 1
  {
    if s == [] then [""]
    else
      var rest := Split(s[1..], sep);
      if s[0] == sep then [""] + rest
      else [[s[0]] + rest[0]] + rest[1..]
  }

  /** `pieces.join(sep)`: the inverse of `Split`. */
  function Join(pieces: seq<string>, sep: char): (r: string)
    requires |pieces| >= 1
  {
    if |pieces| == 1 then pieces[0] else pieces[0] + [sep] + Join(pieces[1..], sep)
  }

  /** There is one more piece than there are separators. */
  lemma {:induction false} SplitCount(s: string, sep: char)
    ensures |Split(s, sep)| == multiset(s)[sep] + 1
  {
    if s != [] {
      SplitCount(s[1..], sep);
      assert s == [s[0]] + s[1..];
      assert multiset(s) == multiset{s[0]} + multiset(s[1..]);
    }
  }

  /** No piece contains the separator. */
  lemma {:induction false} SplitPiecesFree(s: string, sep: char)
    ensures forall i :: 0 <= i < |Split(s, sep)| ==> sep !in Split(s, sep)[i]
  {
    if s != [] {
      SplitPiecesFree(s[1..], sep);
      var rest := Split(s[1..], sep);
      if s[0] != sep {
        var r := Split(s, sep);
        assert r[0] == [s[0]] + rest[0];
        forall i | 0 <= i < |r| ensures sep !in r[i] {
          if i > 0 { assert r[i] == rest[i]; }
        }
      }
    }
  }

  /** One step of `Split`, for a string written as a first character and the rest. */
  lemma SplitCons(c: char, t: string, sep: char)
    ensures Split([c] + t, sep) ==
      if c == sep then [""] + Split(t, sep) else [[c] + Split(t, sep)[0]] + Split(t, sep)[1..]
  {
    var s := [c] + t;
    assert s != [] && s[0] == c && s[1..] == t;
  }

  /** Joining the pieces with the separator gives back the string. */
  lemma {:induction false} JoinSplit(s: string, sep: char)
    ensures Join(Split(s, sep), sep) == s
  {
    if s != [] {
      var c, t := s[0], s[1..];
      assert s == [c] + t;
      JoinSplit(t, sep);
      JoinSplitStep(c, t, sep);
    }
  }

  /** The inductive step of `JoinSplit`: a first character is put back in front. */
  lemma JoinSplitStep(c: char, t: string, sep: char)
    requires Join(Split(t, sep), sep) == t
    ensures Join(Split([c] + t, sep), sep) == [c] + t
  {
    var rest := Split(t, sep);
    SplitCons(c, t, sep);
    var r := Split([c] + t, sep);
    if c == sep {
      assert r[0] == "" && r[1..] == rest;
    } else if |rest| == 1 {
      assert r == [[c] + rest[0]];
    } else {
      JoinFirst(rest[0], rest[1..], c, sep);
      assert [rest[0]] + rest[1..] == rest;
      assert r == [[c] + rest[0]] + rest[1..];
    }
  }

  /** Extending the first piece at the front extends the join at the front. */
  lemma JoinFirst(first: string, more: seq<string>, c: char, sep: char)
    requires |more| >= 1
    ensures Join([[c] + first] + more, sep) == [c] + Join([first] + more, sep)
  {
    var a, b := [[c] + first] + more, [first] + more;
    assert a[0] == [c] + first && a[1..] == more;
    assert b[0] == first && b[1..] == more;
    assert ([c] + first) + [sep] + Join(more, sep) == [c] + (first + [sep] + Join(more, sep));
  }

  /** A string without the separator is a single piece. */
  lemma {:induction false} SplitNoSeparator(s: string, sep: char)
    requires sep !in s
    ensures Split(s, sep) == [s]
  {
    if s != [] {
      SplitNoSeparator(s[1..], sep);
      assert s == [s[0]] + s[1..];
    }
  }

  /** A separator-free prefix followed by the separator splits off as the first piece. */
  lemma {:induction false} SplitPrefix(a: string, sep: char, b: string)
    requires sep !in a
    ensures Split(a + [sep] + b, sep) == [a] + Split(b, sep)
  {
    var s := a + [sep] + b;
    if a == [] {
      assert s[0] == sep && s[1..] == b;
    } else {
      assert s[0] == a[0] && s[1..] == a[1..] + [sep] + b;
      SplitPrefix(a[1..], sep, b);
      assert [a[0]] + a[1..] == a;
    }
  }

  /** Splitting the join of separator-free pieces gives back the pieces. */
  lemma {:induction false} SplitJoin(pieces: seq<string>, sep: char)
    requires |pieces| >= 1 && forall i :: 0 <= i < |pieces| ==> sep !in pieces[i]
    ensures Split(Join(pieces, sep), sep) == pieces
  {
    if |pieces| == 1 {
      SplitNoSeparator(pieces[0], sep);
    } else {
      SplitJoin(pieces[1..], sep);
      SplitPrefix(pieces[0], sep, Join(pieces[1..], sep));
      assert [pieces[0]] + pieces[1..] == pieces;
    }
  }

  /** The number of whitespace characters `s` starts with. */
  function Lead(s: string): (n: nat)
    ensures n <= |s|
  {
    if s != [] && IsWhitespace(s[0]) then 1 + Lead(s[1..]) else 0
  }

  /** The number of whitespace characters `s` ends with. */
  function Trail(s: string): (n: nat)
    ensures n <= |s|
  {
    if s != [] && IsWhitespace(s[|s| - 1]) then 1 + Trail(s[..|s| - 1]) else 0
  }

  lemma {:induction false} LeadSpec(s: string)
    ensures forall i :: 0 <= i < Lead(s) ==> IsWhitespace(s[i])
    ensures Lead(s) < |s| ==> !IsWhitespace(s[Lead(s)])
  {
    if s != [] && IsWhitespace(s[0]) {
      var t := s[1..];
      LeadSpec(t);
      forall i | 0 <= i < Lead(s) ensures IsWhitespace(s[i]) {
        if i > 0 { assert s[i] == t[i - 1]; }
      }
      if Lead(s) < |s| { assert s[Lead(s)] == t[Lead(t)]; }
    }
  }

  lemma {:induction false} TrailSpec(s: string)
    ensures forall i :: |s| - Trail(s) <= i < |s| ==> IsWhitespace(s[i])
    ensures Trail(s) < |s| ==> !IsWhitespace(s[|s| - 1 - Trail(s)])
  {
    if s != [] && IsWhitespace(s[|s| - 1]) {
      var t := s[..|s| - 1];
      TrailSpec(t);
      forall i | |s| - Trail(s) <= i < |s| ensures IsWhitespace(s[i]) {
        if i < |s| - 1 { assert s[i] == t[i]; }
      }
      if Trail(s) < |s| { assert s[|s| - 1 - Trail(s)] == t[|t| - 1 - Trail(t)]; }
    }
  }

  /** Unless `s` is all whitespace, its whitespace prefix and suffix do not overlap. */
  lemma LeadTrail(s: string)
    ensures Lead(s) < |s| ==> Lead(s) + Trail(s) < |s|
    ensures Lead(s) == |s| ==> Trail(s) == |s|
  {
    LeadSpec(s);
    TrailSpec(s);
    if Lead(s) < |s| {
      assert !IsWhitespace(s[Lead(s)]);
    }
  }

  /** `s.trim()`: `s` without its leading and trailing whitespace. */
  function Trim(s: string): (r: string)
    ensures |r| <= |s|
  {
    LeadTrail(s);
    if Lead(s) == |s| then "" else s[Lead(s)..|s| - Trail(s)]
  }

  /** `Trim(s)` is the part of `s` between a whitespace prefix and a whitespace suffix. */
  lemma TrimSpec(s: string)
    ensures Lead(s) + |Trim(s)| <= |s|
    ensures Trim(s) == s[Lead(s)..Lead(s) + |Trim(s)|]
    ensures forall i :: 0 <= i < Lead(s) ==> IsWhitespace(s[i])
    ensures forall i :: Lead(s) + |Trim(s)| <= i < |s| ==> IsWhitespace(s[i])
  {
    LeadSpec(s);
    TrailSpec(s);
    LeadTrail(s);
  }

  /** What `Trim` returns neither starts nor ends with whitespace. */
  lemma TrimEdges(s: string)
    ensures Trim(s) != [] ==> !IsWhitespace(Trim(s)[0]) && !IsWhitespace(Trim(s)[|Trim(s)| - 1])
  {
    LeadSpec(s);
    TrailSpec(s);
    LeadTrail(s);
    if Trim(s) != [] {
      assert Trim(s)[0] == s[Lead(s)];
      assert Trim(s)[|Trim(s)| - 1] == s[|s| - 1 - Trail(s)];
    }
  }

  /** A string with no whitespace at either end is its own trim. */
  lemma TrimFixed(s: string)
    requires s != [] ==> !IsWhitespace(s[0]) && !IsWhitespace(s[|s| - 1])
    ensures Trim(s) == s
  {
    assert Lead(s) == 0 && Trail(s) == 0;
  }

  /** Trimming twice is trimming once. */
  lemma TrimIdempotent(s: string)
    ensures Trim(Trim(s)) == Trim(s)
  {
    TrimEdges(s);
    TrimFixed(Trim(s));
  }

  /** Trims every piece. */
  function TrimEach(pieces: seq<string>): (r: seq<string>)
    ensures |r| == |pieces|
    ensures forall i :: 0 <= i < |r| ==> r[i] == Trim(pieces[i])
  {
    seq(|pieces|, i requires 0 <= i < |pieces| => Trim(pieces[i]))
  }

  /** `s.split(",").map(x => x.trim())`: the parse shared by notification targets and package inclusions. */
  function CommaList(s: string): (r: seq<string>)
  {
    TrimEach(Split(s, ','))
  }

  /** Trimming never introduces a character. */
  lemma TrimKeepsOut(p: string, c: char)
    requires c !in p
    ensures c !in Trim(p)
  {
    TrimSpec(p);
    var k, r := Lead(p), Trim(p);
    forall j | 0 <= j < |r| ensures r[j] != c {
      assert r[j] == p[k + j];
    }
  }

  /** The list has one entry per comma plus one, each the trimmed piece between commas. */
  lemma CommaListShape(s: string)
    ensures |CommaList(s)| == multiset(s)[','] + 1
    ensures forall i :: 0 <= i < |CommaList(s)| ==> CommaList(s)[i] == Trim(Split(s, ',')[i])
    ensures forall i :: 0 <= i < |CommaList(s)| ==> ',' !in CommaList(s)[i]
  {
    SplitCount(s, ',');
    SplitPiecesFree(s, ',');
    var pieces := Split(s, ',');
    forall i | 0 <= i < |pieces| ensures ',' !in Trim(pieces[i]) {
      TrimKeepsOut(pieces[i], ',');
    }
  }
}
