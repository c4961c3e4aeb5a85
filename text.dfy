/** The Python string operations the listing parsers rely on, as functions on
    seq<char>: str.strip(), str.split(sep), str.split(), str.splitlines(), the
    substring test `sub in s` and the code-point order behind `a > b`. */
module Text {

  /** Characters for which Python's str.isspace() holds; str.split() with no
      argument and str.strip() split and trim on exactly these. */
  predicate IsSpace(c: char)
  {
    c == ' ' || ('\t' <= c <= '\r') || ('\U{1c}' <= c <= '\U{1f}') ||
    c == '\U{85}' || c == '\U{a0}' || c == '\U{1680}' ||
    ('\U{2000}' <= c <= '\U{200a}') || c == '\U{2028}' || c == '\U{2029}' ||
    c == '\U{202f}' || c == '\U{205f}' || c == '\U{3000}'
  }

  /** Line boundaries recognised by str.splitlines(). */
  predicate IsLineBreak(c: char)
  {
    c == '\n' || c == '\r' || c == '\U{b}' || c == '\U{c}' ||
    ('\U{1c}' <= c <= '\U{1e}') || c == '\U{85}' || c == '\U{2028}' || c == '\U{2029}'
  }

  /** A token of str.split(): non-empty and free of whitespace. */
  predicate IsWord(w: string)
  {
    w != [] && forall k :: 0 <= k < |w| ==> !IsSpace(w[k])
  }

  /** Every character of t is whitespace. */
  predicate AllSpace(t: string)
  {
    forall k :: 0 <= k < |t| ==> IsSpace(t[k])
  }

  function TrimStart(s: string): (r: string)
    ensures |r| <= |s| && r == s[|s| - |r|..]
    ensures r == [] || !IsSpace(r[0])
    ensures AllSpace(s[..|s| - |r|])
    decreases |s|
  {
    if s != [] && IsSpace(s[0]) then
      var r := TrimStart(s[1..]);
      assert s[..|s| - |r|] == [s[0]] + s[1..][..|s| - 1 - |r|];
      r
    else s
  }

  function TrimEnd(s: string): (r: string)
    ensures |r| <= |s| && r == s[..|r|]
    ensures r == [] || !IsSpace(r[|r| - 1])
    ensures AllSpace(s[|r|..])
    decreases |s|
  {
    if s != [] && IsSpace(s[|s| - 1]) then
      var r := TrimEnd(s[..|s| - 1]);
      assert s[|r|..] == s[..|s| - 1][|r|..] + [s[|s| - 1]];
      r
    else s
  }

  /** s.strip() */
  function Strip(s: string): (r: string)
    ensures r == [] || (!IsSpace(r[0]) && !IsSpace(r[|r| - 1]))
  {
    TrimEnd(TrimStart(s))
  }

  /** s.strip() is what lies between a whitespace-only prefix and a
      whitespace-only suffix of s. */
  lemma StripSlice(s: string)
    ensures var r, lead := Strip(s), |s| - |TrimStart(s)|;
      && lead + |r| <= |s|
      && s == s[..lead] + r + s[lead + |r|..]
      && AllSpace(s[..lead]) && AllSpace(s[lead + |r|..])
  {
    TrimmedSlice(s, TrimStart(s), Strip(s));
  }

  /** A prefix r of a suffix u of s cuts s into three pieces, the last of
      which is what follows r in u. */
  lemma TrimmedSlice(s: string, u: string, r: string)
    requires |u| <= |s| && u == s[|s| - |u|..]
    requires |r| <= |u| && r == u[..|r|]
    ensures var lead := |s| - |u|;
      && lead + |r| <= |s|
      && s == s[..lead] + r + s[lead + |r|..]
      && s[lead + |r|..] == u[|r|..]
  {
    var lead := |s| - |u|;
    assert s[lead + |r|..] == u[|r|..];
    assert s == s[..lead] + r + s[lead + |r|..] by {
      assert forall k :: 0 <= k < |s| ==> s[k] == (s[..lead] + r + s[lead + |r|..])[k];
    }
  }

  /** Position of the first occurrence of c in s. */
  function IndexOf(s: string, c: char): (i: nat)
    requires c in s
    ensures i < |s| && s[i] == c && c !in s[..i]
  {
    if s[0] == c then 0
    else
      var j := IndexOf(s[1..], c);
      assert s[..j + 1] == [s[0]] + s[1..][..j];
      1 + j
  }

  /** s.split(sep) for a one-character separator: never an empty list, and
      no piece holds the separator. */
  function Split(s: string, sep: char): (parts: seq<string>)
    ensures |parts| >= 1
    ensures |parts| == 1 <==> sep !in s
    ensures forall i :: 0 <= i < |parts| ==> sep !in parts[i]
    decreases |s|
  {
    if sep !in s then [s]
    else
      var i := IndexOf(s, sep);
      [s[..i]] + Split(s[i + 1..], sep)
  }

  /** sep.join(parts), the inverse of Split. */
  function Join(parts: seq<string>, sep: char): string
    requires |parts| >= 1
    decreases |parts|
  {
    if |parts| == 1 then parts[0] else parts[0] + [sep] + Join(parts[1..], sep)
  }

  /** Joining the pieces of a split gives the string back. */
  lemma {:induction false} JoinSplit(s: string, sep: char)
    ensures Join(Split(s, sep), sep) == s
    decreases |s|
  {
    if sep in s {
      var i := IndexOf(s, sep);
      SplitAtFirst(s, sep);
      JoinSplit(s[i + 1..], sep);
      JoinCons(s[..i], Split(s[i + 1..], sep), sep);
    }
  }

  /** The split of s is the piece before its first separator followed by the
      split of what comes after that separator. */
  lemma SplitAtFirst(s: string, sep: char)
    requires sep in s
    ensures var i := IndexOf(s, sep);
      && Split(s, sep) == [s[..i]] + Split(s[i + 1..], sep)
      && s == s[..i] + [sep] + s[i + 1..]
  {
    var i := IndexOf(s, sep);
    assert s == s[..i] + [sep] + s[i + 1..];
  }

  lemma JoinCons(head: string, tail: seq<string>, sep: char)
    requires |tail| >= 1
    ensures Join([head] + tail, sep) == head + [sep] + Join(tail, sep)
  {
    assert ([head] + tail)[1..] == tail;
  }

  /** Splitting a join of separator-free pieces gives the pieces back. */
  lemma {:induction false} SplitJoin(parts: seq<string>, sep: char)
    requires |parts| >= 1
    requires forall i :: 0 <= i < |parts| ==> sep !in parts[i]
    ensures Split(Join(parts, sep), sep) == parts
    decreases |parts|
  {
    if |parts| > 1 {
      var rest := Join(parts[1..], sep);
      assert Join(parts, sep) == parts[0] + [sep] + rest;
      SplitFirst(parts[0], sep, rest);
      SplitJoin(parts[1..], sep);
      assert [parts[0]] + parts[1..] == parts;
    } else {
      assert sep !in Join(parts, sep);
    }
  }

  /** The first separator of head + [sep] + rest is the one after head. */
  lemma SplitFirst(head: string, sep: char, rest: string)
    requires sep !in head
    ensures Split(head + [sep] + rest, sep) == [head] + Split(rest, sep)
  {
    var s := head + [sep] + rest;
    assert s[|head|] == sep;
    assert s[..|head|] == head;
    assert IndexOf(s, sep) == |head|;
    assert s[|head| + 1..] == rest;
  }

  /** Length of the leading run of non-whitespace characters. */
  function WordEnd(s: string): (n: nat)
    ensures n <= |s|
    ensures forall k :: 0 <= k < n ==> !IsSpace(s[k])
    ensures n == |s| || IsSpace(s[n])
  {
    if s == [] || IsSpace(s[0]) then 0 else 1 + WordEnd(s[1..])
  }

  /** s.split() with no argument: the maximal runs of non-whitespace. */
  function Words(s: string): (ws: seq<string>)
    ensures forall i :: 0 <= i < |ws| ==> IsWord(ws[i])
    decreases |s|
  {
    if s == [] then []
    else if IsSpace(s[0]) then Words(s[1..])
    else
      var n := WordEnd(s);
      [s[..n]] + Words(s[n..])
  }

  /** The tokens after the first are the tokens of what follows the first
      token once leading whitespace is dropped. */
  lemma {:induction false} WordsRest(s: string)
    requires Words(s) != []
    ensures var u := TrimStart(s);
      |Words(s)[0]| <= |u| && Words(s)[1..] == Words(u[|Words(s)[0]|..])
    decreases |s|
  {
    if IsSpace(s[0]) {
      WordsRest(s[1..]);
    }
  }

  /** A string with a non-whitespace character splits into at least one token. */
  lemma {:induction false} NonSpaceHasWord(s: string, i: nat)
    requires i < |s| && !IsSpace(s[i])
    ensures Words(s) != []
    decreases |s|
  {
    if IsSpace(s[0]) {
      NonSpaceHasWord(s[1..], i - 1);
    }
  }

  /** s.split() is empty exactly when s is blank. */
  lemma {:induction false} BlankHasNoWords(s: string)
    ensures Words(s) == [] <==> forall k :: 0 <= k < |s| ==> IsSpace(s[k])
    decreases |s|
  {
    if s != [] && IsSpace(s[0]) {
      BlankHasNoWords(s[1..]);
      assert forall k :: 1 <= k < |s| ==> s[1..][k - 1] == s[k];
    }
  }

  /** s.split()[0] is what s starts with once leading whitespace is dropped,
      up to the next whitespace character or the end. */
  lemma {:induction false} FirstWordLeads(s: string)
    requires Words(s) != []
    ensures var w := Words(s)[0]; var u := TrimStart(s);
      w <= u && (|w| == |u| || IsSpace(u[|w|]))
    decreases |s|
  {
    if IsSpace(s[0]) {
      FirstWordLeads(s[1..]);
    }
  }

  /** `sub in s` */
  predicate Contains(s: string, sub: string)
    decreases |s|
  {
    sub <= s || (s != [] && Contains(s[1..], sub))
  }

  /** A string contains every piece it is assembled around. */
  lemma {:induction false} ContainsInfix(a: string, sub: string, b: string)
    ensures Contains(a + sub + b, sub)
    decreases |a|
  {
    if a != [] {
      ContainsInfix(a[1..], sub, b);
      assert (a + sub + b)[1..] == a[1..] + sub + b;
    } else {
      assert a + sub + b == sub + b;
    }
  }

  /** A string containing a substring with a non-whitespace character has a token. */
  lemma {:induction false} ContainingHasWord(s: string, sub: string, j: nat)
    requires Contains(s, sub) && j < |sub| && !IsSpace(sub[j])
    ensures Words(s) != []
    decreases |s|
  {
    if sub <= s {
      NonSpaceHasWord(s, j);
    } else {
      ContainingHasWord(s[1..], sub, j);
    }
  }

  /** Position of the first line boundary, or |s|. */
  function BreakAt(s: string): (i: nat)
    ensures i <= |s|
    ensures forall k :: 0 <= k < i ==> !IsLineBreak(s[k])
    ensures i < |s| ==> IsLineBreak(s[i])
  {
    if s == [] || IsLineBreak(s[0]) then 0 else 1 + BreakAt(s[1..])
  }

  /** s.splitlines(): "\r\n" is one boundary, and a final boundary does not
      open an empty last line. */
  function Lines(s: string): (ls: seq<string>)
    ensures forall i, k :: 0 <= i < |ls| && 0 <= k < |ls[i]| ==> !IsLineBreak(ls[i][k])
    decreases |s|
  {
    if s == [] then []
    else
      var i := BreakAt(s);
      if i == |s| then [s]
      else
        var w := if s[i] == '\r' && i + 1 < |s| && s[i + 1] == '\n' then 2 else 1;
        [s[..i]] + Lines(s[i + w..])
  }

  /** A line as str.splitlines() returns it: no line boundary inside. */
  predicate NoLineBreak(l: string)
  {
    forall k :: 0 <= k < |l| ==> !IsLineBreak(l[k])
  }

  /** Joining lines that hold no line boundary, the last one non-empty, with
      "\n" and splitting the result with splitlines() gives the lines back. */
  lemma {:induction false} LinesJoin(parts: seq<string>)
    requires |parts| >= 1 && parts[|parts| - 1] != []
    requires forall i :: 0 <= i < |parts| ==> NoLineBreak(parts[i])
    ensures Lines(Join(parts, '\n')) == parts
    decreases |parts|
  {
    if |parts| == 1 {
      LinesSingle(parts[0]);
    } else {
      var tail := parts[1..];
      assert NoLineBreak(parts[0]);
      LinesJoin(tail);
      LinesJoinCons(parts[0], tail);
      assert [parts[0]] + tail == parts;
    }
  }

  /** Putting one more line without boundaries in front of joined lines puts
      it in front of their splitlines(). */
  lemma LinesJoinCons(head: string, tail: seq<string>)
    requires |tail| >= 1 && NoLineBreak(head)
    ensures Lines(Join([head] + tail, '\n')) == [head] + Lines(Join(tail, '\n'))
  {
    var parts := [head] + tail;
    assert parts[1..] == tail;
    assert Join(parts, '\n') == head + ['\n'] + Join(tail, '\n');
    LinesCons(head, Join(tail, '\n'));
  }

  /** A non-empty line without boundaries is its own single line. */
  lemma LinesSingle(l: string)
    requires l != [] && NoLineBreak(l)
    ensures Lines(l) == [l]
  {
    assert BreakAt(l) == |l|;
  }

  /** A line without boundaries followed by "\n" is split off as the first line. */
  lemma LinesCons(head: string, rest: string)
    requires NoLineBreak(head)
    ensures Lines(head + ['\n'] + rest) == [head] + Lines(rest)
  {
    var s := head + ['\n'] + rest;
    BreakAtPrefix(head, ['\n'] + rest);
    assert s == head + (['\n'] + rest);
    assert s[..|head|] == head && s[|head|] == '\n';
    assert s[|head| + 1..] == rest;
  }

  /** A prefix without line boundaries is skipped up to the first boundary after it. */
  lemma {:induction false} BreakAtPrefix(head: string, tail: string)
    requires NoLineBreak(head)
    requires tail != [] && IsLineBreak(tail[0])
    ensures BreakAt(head + tail) == |head|
    decreases |head|
  {
    if head != [] {
      BreakAtPrefix(head[1..], tail);
      assert (head + tail)[1..] == head[1..] + tail;
    } else {
      assert head + tail == tail;
    }
  }

  /** a < b on Python strings: lexicographic by code point. */
  predicate Less(a: string, b: string)
    decreases |a|
  {
    if a == [] then b != []
    else b != [] && (a[0] < b[0] || (a[0] == b[0] && Less(a[1..], b[1..])))
  }

  lemma {:induction false} LessIrreflexive(a: string)
    ensures !Less(a, a)
    decreases |a|
  {
    if a != [] {
      LessIrreflexive(a[1..]);
    }
  }

  lemma {:induction false} LessTransitive(a: string, b: string, c: string)
    requires Less(a, b) && Less(b, c)
    ensures Less(a, c)
    decreases |a|
  {
    if a != [] && a[0] == b[0] && b[0] == c[0] {
      LessTransitive(a[1..], b[1..], c[1..]);
    }
  }

  lemma {:induction false} LessTotal(a: string, b: string)
    ensures a == b || Less(a, b) || Less(b, a)
    decreases |a|
  {
    if a != [] && b != [] && a[0] == b[0] {
      LessTotal(a[1..], b[1..]);
      if a[1..] == b[1..] {
        assert a == [a[0]] + a[1..] && b == [b[0]] + b[1..];
      }
    }
  }
}
