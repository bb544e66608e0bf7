/** `str.split(sep)` and `sep.join(parts)` for a one-character separator. */
module Text {

  function Split(sep: char, s: string): (parts: seq<string>)
    ensures |parts| >= 1
  {
    if s == [] then [""]
    else
      var rest := Split(sep, s[1..]);
      if s[0] == sep then [""] + rest else [[s[0]] + rest[0]] + rest[1..]
  }

  function Join(sep: char, parts: seq<string>): string {
    if parts == [] then ""
    else if |parts| == 1 then parts[0]
    else parts[0] + [sep] + Join(sep, parts[1..])
  }

  ghost predicate Free(sep: char, parts: seq<string>) {
    forall i | 0 <= i < |parts| :: sep !in parts[i]
  }

  lemma {:induction false} SplitIsFree(sep: char, s: string)
    ensures Free(sep, Split(sep, s))
  {
    if s != [] {
      SplitIsFree(sep, s[1..]);
    }
  }

  lemma JoinPrepend(sep: char, c: char, parts: seq<string>)
    requires parts != []
    ensures Join(sep, [[c] + parts[0]] + parts[1..]) == [c] + Join(sep, parts)
  {
    var longer := [[c] + parts[0]] + parts[1..];
    assert longer[1..] == parts[1..];
    if |parts| > 1 {
      assert ([c] + parts[0]) + [sep] + Join(sep, parts[1..]) == [c] + (parts[0] + [sep] + Join(sep, parts[1..]));
    }
  }

  lemma {:induction false} JoinUndoesSplit(sep: char, s: string)
    ensures Join(sep, Split(sep, s)) == s
  {
    if s != [] {
      JoinUndoesSplit(sep, s[1..]);
      var rest := Split(sep, s[1..]);
      assert s == [s[0]] + s[1..];
      if s[0] == sep {
        assert ([""] + rest)[1..] == rest;
        assert "" + [sep] + Join(sep, rest) == [sep] + Join(sep, rest);
      } else {
        JoinPrepend(sep, s[0], rest);
      }
    }
  }

  lemma {:induction false} SplitWithoutSeparator(sep: char, s: string)
    requires sep !in s
    ensures Split(sep, s) == [s]
  {
    if s != [] {
      SplitWithoutSeparator(sep, s[1..]);
      assert s == [s[0]] + s[1..];
    }
  }

  lemma {:induction false} SplitAtSeparator(sep: char, head: string, tail: string)
    requires sep !in head
    ensures Split(sep, head + [sep] + tail) == [head] + Split(sep, tail)
  {
    var s := head + [sep] + tail;
    if head == [] {
      assert s[1..] == tail;
    } else {
      assert s[1..] == head[1..] + [sep] + tail;
      SplitAtSeparator(sep, head[1..], tail);
      assert head == [head[0]] + head[1..];
    }
  }

  lemma {:induction false} SplitUndoesJoin(sep: char, parts: seq<string>)
    requires parts != [] && Free(sep, parts)
    ensures Split(sep, Join(sep, parts)) == parts
  {
    if |parts| == 1 {
      SplitWithoutSeparator(sep, parts[0]);
    } else {
      SplitUndoesJoin(sep, parts[1..]);
      SplitAtSeparator(sep, parts[0], Join(sep, parts[1..]));
    }
  }

  lemma SplitUnfolds(sep: char, s: string)
    ensures s == [] ==> Split(sep, s) == [""]
    ensures s != [] ==>
      var rest := Split(sep, s[1..]);
      Split(sep, s) == if s[0] == sep then [""] + rest else [[s[0]] + rest[0]] + rest[1..]
  {
  }

  lemma {:induction false} SplitTrailing(sep: char, s: string)
    ensures Split(sep, s + [sep]) == Split(sep, s) + [""]
  {
    hide Split;
    SplitUnfolds(sep, s);
    SplitUnfolds(sep, s + [sep]);
    if s == [] {
      SplitUnfolds(sep, "");
      assert s + [sep] == [sep] && [sep][1..] == "";
    } else {
      SplitTrailing(sep, s[1..]);
      assert (s + [sep])[1..] == s[1..] + [sep];
      var rest := Split(sep, s[1..]);
      assert (rest + [""])[1..] == rest[1..] + [""];
    }
  }

  predicate EndsWith(s: string, suffix: string) {
    |suffix| <= |s| && s[|s| - |suffix|..] == suffix
  }

  function LowerChar(c: char): char { if 'A' <= c <= 'Z' then (c as int + 32) as char else c }

  /** `str.lower` and `str.casefold` of ASCII text. */
  function Lower(s: string): string { seq(|s|, i requires 0 <= i < |s| => LowerChar(s[i])) }

  predicate Letter(c: char) { 'a' <= c <= 'z' || 'A' <= c <= 'Z' }

  /** The same letter, in either case, or the same character. */
  predicate SameLetter(c: char, d: char) {
    c == d || (Letter(c) && Letter(d) && (c as int - d as int == 32 || d as int - c as int == 32))
  }

  predicate SameLetters(a: string, b: string) {
    |a| == |b| && forall i | 0 <= i < |a| :: SameLetter(a[i], b[i])
  }

  lemma LowerMeans(a: string, b: string)
    ensures Lower(a) == Lower(b) <==> SameLetters(a, b)
  {
    if Lower(a) == Lower(b) {
      forall i | 0 <= i < |a| ensures SameLetter(a[i], b[i]) { assert Lower(a)[i] == Lower(b)[i]; }
    }
  }

  /** A character of `[A-Za-z0-9._-]`. */
  predicate PortableChar(c: char) {
    'A' <= c <= 'Z' || 'a' <= c <= 'z' || '0' <= c <= '9' || c == '.' || c == '_' || c == '-'
  }

  /** A portable path component that names something. */
  predicate PortablePart(s: string) {
    s != "" && s != "." && s != ".." && forall i | 0 <= i < |s| :: PortableChar(s[i])
  }

  // ---- Where a path leads ----

  /** The directory after one component, with "." and ".." interpreted as file systems do. */
  function Entered(at: seq<string>, part: string): seq<string> {
    if part == "" || part == "." then at
    else if part == ".." then (if at == [] then [] else at[..|at| - 1])
    else at + [part]
  }

  /** The directory that a relative path leads to. */
  function Resolve(at: seq<string>, parts: seq<string>): seq<string>
    decreases parts
  {
    if parts == [] then at else Resolve(Entered(at, parts[0]), parts[1..])
  }

  predicate Plain(part: string) { part != "" && part != "." && part != ".." }

  ghost predicate AllPlain(parts: seq<string>) { forall i | 0 <= i < |parts| :: Plain(parts[i]) }

  /** From anywhere it leads exactly where its components say, never up and never astray. */
  ghost predicate Straight(parts: seq<string>) { forall at: seq<string> :: Resolve(at, parts) == at + parts }

  lemma {:induction false} PlainLeadsStraight(at: seq<string>, parts: seq<string>)
    requires AllPlain(parts)
    ensures Resolve(at, parts) == at + parts
    decreases parts
  {
    if parts == [] {
      assert at + parts == at;
    } else {
      PlainLeadsStraight(at + [parts[0]], parts[1..]);
      assert at + [parts[0]] + parts[1..] == at + parts;
    }
  }

  lemma {:induction false} ResolveIsShort(at: seq<string>, parts: seq<string>)
    ensures |Resolve(at, parts)| <= |at| + |parts|
    ensures |Resolve(at, parts)| == |at| + |parts| ==> AllPlain(parts)
    decreases parts
  {
    if parts != [] {
      ResolveIsShort(Entered(at, parts[0]), parts[1..]);
      if |Resolve(at, parts)| == |at| + |parts| {
        forall i | 0 <= i < |parts| ensures Plain(parts[i]) {
          if i > 0 { assert parts[i] == parts[1..][i - 1]; }
        }
      }
    }
  }

  /** A path is straight exactly when no component is empty, "." or "..". */
  lemma StraightIsPlain(parts: seq<string>)
    ensures Straight(parts) <==> AllPlain(parts)
  {
    hide Resolve, Plain;
    if AllPlain(parts) {
      forall at: seq<string> ensures Resolve(at, parts) == at + parts { PlainLeadsStraight(at, parts); }
    }
    if Straight(parts) {
      ResolveIsShort([], parts);
      assert Resolve([], parts) == [] + parts;
    }
  }
}
