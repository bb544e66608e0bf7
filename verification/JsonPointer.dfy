/** JSON Pointer (RFC 6901), as scripts/verify_agent_plugins.py writes and follows it. */
module JsonPointer {
  import opened Text
  import opened Wrappers

  datatype Json = Object(members: map<string, Json>) | Other

  /** `str.replace` of one character by another text. */
  function ReplaceChar(s: string, c: char, put: string): string {
    if s == [] then [] else (if s[0] == c then put else [s[0]]) + ReplaceChar(s[1..], c, put)
  }

  /** `str.replace` of two characters by one: leftmost matches first, never overlapping. */
  function ReplacePair(s: string, a: char, b: char, put: char): string {
    if s == [] then []
    else if |s| >= 2 && s[0] == a && s[1] == b then [put] + ReplacePair(s[2..], a, b, put)
    else [s[0]] + ReplacePair(s[1..], a, b, put)
  }

  function Escape(item: string): string { ReplaceChar(ReplaceChar(item, '~', "~0"), '/', "~1") }

  function Unescape(part: string): string { ReplacePair(ReplacePair(part, '~', '1', '/'), '~', '0', '~') }

  /** A tilde becomes "~0", a slash "~1", and everything else stays. */
  lemma EscapeMeans(c: char, s: string)
    ensures Escape([c] + s) == (if c == '~' then "~0" else if c == '/' then "~1" else [c]) + Escape(s)
  {
    hide ReplaceChar;
    var inner := ReplaceChar(s, '~', "~0");
    ReplaceStep(c, s, '~', "~0");
    if c == '~' {
      assert "~0" + inner == ['~'] + (['0'] + inner);
      ReplaceStep('~', ['0'] + inner, '/', "~1");
      ReplaceStep('0', inner, '/', "~1");
    } else {
      ReplaceStep(c, inner, '/', "~1");
    }
  }

  lemma ReplaceStep(d: char, s: string, c: char, put: string)
    ensures ReplaceChar("", c, put) == ""
    ensures ReplaceChar([d] + s, c, put) == (if d == c then put else [d]) + ReplaceChar(s, c, put)
  {
    assert ([d] + s)[1..] == s;
  }

  function Escaped(path: seq<string>): seq<string> {
    if path == [] then [] else [Escape(path[0])] + Escaped(path[1..])
  }

  /** `_pointer`; list indices enter a path as their decimal text. */
  function Pointer(path: seq<string>): string {
    if path == [] then "/"
    else
      var text := Join('/', [""] + Escaped(path));
      if text == [] then "/" else text
  }

  lemma {:induction false} EscapedSnoc(path: seq<string>, item: string)
    ensures Escaped(path + [item]) == Escaped(path) + [Escape(item)]
  {
    hide Escape;
    if path == [] {
      assert [item][1..] == [];
    } else {
      EscapedSnoc(path[1..], item);
      assert (path + [item])[1..] == path[1..] + [item];
    }
  }

  /** Every key stands behind a slash of its own. */
  lemma PointerGrows(path: seq<string>, item: string)
    ensures Pointer([item]) == "/" + Escape(item)
    ensures path != [] ==> Pointer(path + [item]) == Pointer(path) + "/" + Escape(item)
  {
    hide Escape;
    assert Escaped([item]) == [Escape(item)] by { assert [item][1..] == []; }
    JoinHead([Escape(item)]);
    if path != [] {
      EscapedSnoc(path, item);
      JoinSnoc('/', [""] + Escaped(path), Escape(item));
      assert [""] + (Escaped(path) + [Escape(item)]) == ([""] + Escaped(path)) + [Escape(item)];
      JoinHead(Escaped(path));
    }
  }

  lemma JoinHead(parts: seq<string>)
    requires parts != []
    ensures Join('/', [""] + parts) == "/" + Join('/', parts)
  {
    assert ([""] + parts)[1..] == parts;
  }

  lemma {:induction false} JoinSnoc(sep: char, parts: seq<string>, last: string)
    requires parts != []
    ensures Join(sep, parts + [last]) == Join(sep, parts) + [sep] + last
  {
    if |parts| > 1 {
      JoinSnoc(sep, parts[1..], last);
      assert (parts + [last])[1..] == parts[1..] + [last];
    } else {
      assert (parts + [last])[1..] == [last];
    }
  }

  /** `_pointer`, part by part. */
  method WritePointer(path: seq<string>) returns (text: string)
    ensures text == Pointer(path)
  {
    if path == [] { return "/"; }
    var parts := [""];
    for i := 0 to |path|
      invariant parts == [""] + Escaped(path[..i])
    {
      EscapedSnoc(path[..i], path[i]);
      assert path[..i + 1] == path[..i] + [path[i]];
      parts := parts + [Escape(path[i])];
    }
    assert path[..|path|] == path;
    text := Join('/', parts);
    if text == [] { text := "/"; }
  }

  /** Where a path of keys leads, by recursion. */
  function Walk(current: Json, path: seq<string>): Option<Json> {
    if path == [] then Some(current)
    else if current.Object? && path[0] in current.members then Walk(current.members[path[0]], path[1..])
    else None
  }

  function Target(root: Json, path: seq<string>): Option<Json> {
    match Walk(root, path)
    case Some(Object(members)) => Some(Object(members))
    case _ => None
  }

  function UnescapedParts(parts: seq<string>): seq<string> {
    if parts == [] then [] else [Unescape(parts[0])] + UnescapedParts(parts[1..])
  }

  /** `_resolve_ref`: nothing stands for the raised error. */
  method ResolveRef(ref: string, root: Json) returns (found: Option<Json>)
    ensures !("#/" <= ref) ==> found == None
    ensures "#/" <= ref ==> found == Target(root, UnescapedParts(Split('/', ref[2..])))
  {
    if !("#/" <= ref) { return None; }
    var parts := Split('/', ref[2..]);
    var current := root;
    for i := 0 to |parts|
      invariant Walk(root, UnescapedParts(parts)) == Walk(current, UnescapedParts(parts[i..]))
    {
      assert parts[i..][0] == parts[i] && parts[i..][1..] == parts[i + 1..];
      var token := Unescape(parts[i]);
      assert UnescapedParts(parts[i..]) == [token] + UnescapedParts(parts[i + 1..]);
      if !current.Object? || token !in current.members { return None; }
      current := current.members[token];
    }
    if !current.Object? { return None; }
    found := Some(current);
  }

  // ---- Unescaping undoes escaping ----

  /** What escaping leaves: no bare slash, and every tilde followed by a digit 0 or 1. */
  lemma {:induction false} SlashPassUndone(s: string)
    ensures ReplacePair(ReplaceChar(ReplaceChar(s, '~', "~0"), '/', "~1"), '~', '1', '/') == ReplaceChar(s, '~', "~0")
  {
    if s != [] {
      SlashPassUndone(s[1..]);
      var rest := ReplaceChar(s[1..], '~', "~0");
      var tail := ReplaceChar(rest, '/', "~1");
      if s[0] == '~' {
        assert ReplaceChar(s, '~', "~0") == "~0" + rest;
        assert ("~0" + rest)[1..] == "0" + rest && ("0" + rest)[1..] == rest;
        assert ReplaceChar("0" + rest, '/', "~1") == "0" + tail;
        assert ReplaceChar("~0" + rest, '/', "~1") == "~" + ("0" + tail);
        assert ("~" + ("0" + tail))[1..] == "0" + tail && ("0" + tail)[1..] == tail;
      } else {
        assert ReplaceChar(s, '~', "~0") == [s[0]] + rest;
        assert ([s[0]] + rest)[1..] == rest;
        if s[0] == '/' {
          assert ("~1" + tail)[2..] == tail;
        } else {
          assert ([s[0]] + tail)[1..] == tail;
        }
      }
    }
  }

  lemma {:induction false} TildePassUndone(s: string)
    ensures ReplacePair(ReplaceChar(s, '~', "~0"), '~', '0', '~') == s
  {
    if s != [] {
      TildePassUndone(s[1..]);
      var rest := ReplaceChar(s[1..], '~', "~0");
      if s[0] == '~' {
        assert ("~0" + rest)[2..] == rest;
      } else {
        assert ([s[0]] + rest)[1..] == rest;
      }
      assert s == [s[0]] + s[1..];
    }
  }

  /** The two passes of unescaping undo the two passes of escaping, in this order. */
  lemma UnescapeUndoesEscape(item: string)
    ensures Unescape(Escape(item)) == item
  {
    SlashPassUndone(item);
    TildePassUndone(item);
  }

  lemma {:induction false} ReplacedIsAbsent(s: string, c: char, put: string)
    requires c !in put
    ensures c !in ReplaceChar(s, c, put)
  {
    if s != [] { ReplacedIsAbsent(s[1..], c, put); }
  }

  lemma {:induction false} EscapedParts(path: seq<string>)
    ensures |Escaped(path)| == |path|
    ensures Free('/', Escaped(path))
    ensures UnescapedParts(Escaped(path)) == path
  {
    hide Escape, Unescape;
    if path != [] {
      EscapedParts(path[1..]);
      UnescapeUndoesEscape(path[0]);
      EscapeHasNoSlash(path[0]);
      assert Escaped(path)[1..] == Escaped(path[1..]);
    }
  }

  lemma EscapeHasNoSlash(item: string)
    ensures '/' !in Escape(item)
  {
    ReplacedIsAbsent(ReplaceChar(item, '~', "~0"), '/', "~1");
  }

  /** The pointer of a non-empty path splits back into exactly that path. */
  lemma PointerSplitsBack(path: seq<string>)
    requires path != []
    ensures "#/" <= "#" + Pointer(path)
    ensures UnescapedParts(Split('/', ("#" + Pointer(path))[2..])) == path
  {
    hide Escape, Unescape, Split;
    var parts := Escaped(path);
    EscapedParts(path);
    assert ([""] + parts)[1..] == parts;
    assert Join('/', [""] + parts) == "/" + Join('/', parts);
    assert ("#" + ("/" + Join('/', parts)))[2..] == Join('/', parts);
    SplitUndoesJoin('/', parts);
  }

  /** Resolving the pointer of a non-empty path walks exactly that path. */
  method ResolvePointer(root: Json, path: seq<string>) returns (found: Option<Json>)
    requires path != []
    ensures found == Target(root, path)
  {
    var text := WritePointer(path);
    PointerSplitsBack(path);
    found := ResolveRef("#" + text, root);
  }

  /** The empty path is the exception: its pointer is "/", which names the key "", so it resolves to
      that member and never to the root itself. */
  method ResolveEmptyPointer(root: Json) returns (found: Option<Json>)
    ensures found == Target(root, [""])
  {
    assert ("#" + Pointer([]))[2..] == [];
    assert UnescapedParts([""]) == [Unescape("")] + UnescapedParts([]);
    var text := WritePointer([]);
    found := ResolveRef("#" + text, root);
  }

  /** The two paths that "/" may stand for. */
  predicate Nameless(path: seq<string>) { path == [] || path == [""] }

  /** Distinct paths have distinct pointers, apart from those two. */
  lemma PointersAgree(a: seq<string>, b: seq<string>)
    ensures Pointer(a) == Pointer(b) <==> a == b || (Nameless(a) && Nameless(b))
  {
    hide Pointer, Escape, Unescape;
    if a != [] { PointerSplitsBack(a); }
    if b != [] { PointerSplitsBack(b); }
    PointerSplitsBack([""]);
    EmptyPointer();
  }

  lemma EmptyPointer()
    ensures Pointer([]) == Pointer([""])
  {
    assert Escape("") == "";
    assert [""][1..] == [] && Escaped([]) == [];
    assert Escaped([""]) == [""];
    assert ["", ""][1..] == [""];
    assert Join('/', [""]) == "";
    assert Join('/', ["", ""]) == "" + "/" + Join('/', [""]);
  }
}
