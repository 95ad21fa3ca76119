/** String operations the services share: trimming, joining with a separator, cutting at the
    first separator, prefix and suffix tests. */
module Text {
  datatype Option<+T> = None | Some(value: T)

  /** The white space that Unicode (and so `strings.TrimSpace`) recognises. */
  predicate IsSpace(c: char) {
    var n := c as int;
    9 <= n <= 13 || n == 32 || n == 0x85 || n == 0xA0 || n == 0x1680 || 0x2000 <= n <= 0x200A ||
    n == 0x2028 || n == 0x2029 || n == 0x202F || n == 0x205F || n == 0x3000
  }

  predicate AllSpace(s: string) {
    forall i | 0 <= i < |s| :: IsSpace(s[i])
  }

  /** Neither end of the text is white space. */
  predicate Trimmed(s: string) {
    s != "" ==> !IsSpace(s[0]) && !IsSpace(s[|s| - 1])
  }

  /** `strings.TrimSpace`: what is left has no white space at its ends, and a text that has none is kept. */
  function Trim(s: string): (r: string)
    ensures Trimmed(r)
    ensures Trimmed(s) ==> r == s
    ensures |r| <= |s|
  {
    if s == "" then ""
    else if IsSpace(s[0]) then Trim(s[1..])
    else if IsSpace(s[|s| - 1]) then Trim(s[..|s| - 1])
    else s
  }

  lemma {:induction false} AllSpaceBlank(s: string)
    requires AllSpace(s)
    ensures Trim(s) == ""
  {
    if s != "" {
      AllSpaceBlank(s[1..]);
    }
  }

  /** Trimming removes exactly the white space around the remaining text. */
  lemma {:induction false} TrimAround(before: string, s: string, after: string)
    requires AllSpace(before) && AllSpace(after) && Trimmed(s)
    ensures Trim(before + s + after) == s
    decreases |before| + |after|
  {
    var whole := before + s + after;
    if s == "" {
      AllSpaceBlank(whole);
    } else if before != "" {
      assert whole[0] == before[0] && whole[1..] == before[1..] + s + after;
      TrimAround(before[1..], s, after);
    } else if after != "" {
      var n := |after| - 1;
      assert whole[0] == s[0] && whole[|whole| - 1] == after[n] && whole[..|whole| - 1] == before + s + after[..n];
      TrimAround(before, s, after[..n]);
    } else {
      assert whole == s;
    }
  }

  /** Trimming never eats into a tail that has no white space at its ends. */
  lemma {:induction false} TrimKeepsTail(x: string, tail: string)
    requires tail != "" && Trimmed(tail)
    ensures |Trim(x + tail)| >= |tail|
  {
    if x == "" {
      assert x + tail == tail;
    } else {
      var whole := x + tail;
      assert whole[0] == x[0] && whole[1..] == x[1..] + tail && whole[|whole| - 1] == tail[|tail| - 1];
      TrimKeepsTail(x[1..], tail);
    }
  }

  /** `strings.Join`. */
  function Join(parts: seq<string>, sep: string): string {
    if |parts| == 0 then ""
    else if |parts| == 1 then parts[0]
    else parts[0] + sep + Join(parts[1..], sep)
  }

  /** Joining two non-empty lists is joining their joins. */
  lemma {:induction false} JoinAppend(a: seq<string>, b: seq<string>, sep: string)
    requires a != [] && b != []
    ensures Join(a + b, sep) == Join(a, sep) + sep + Join(b, sep)
  {
    if |a| == 1 {
      assert (a + b)[1..] == b;
    } else {
      assert (a + b)[1..] == a[1..] + b;
      JoinAppend(a[1..], b, sep);
      JoinRegroup(a[0], sep, Join(a[1..], sep), Join(b, sep));
    }
  }

  lemma JoinRegroup(h: string, sep: string, x: string, y: string)
    ensures h + sep + (x + sep + y) == h + sep + x + sep + y
  {
  }

  /** `strings.Cut`: the text before and after the first separator, if there is one. */
  function Cut(s: string, sep: char): (r: Option<(string, string)>)
    ensures r.None? <==> sep !in s
    ensures r.Some? ==> s == r.value.0 + [sep] + r.value.1 && sep !in r.value.0
  {
    if s == "" then None
    else if s[0] == sep then Some(("", s[1..]))
    else
      assert s == [s[0]] + s[1..];
      match Cut(s[1..], sep)
      case None => None
      case Some((before, after)) => Some(([s[0]] + before, after))
  }

  /** Cutting finds the first separator: the part before it is the only separator-free prefix. */
  lemma {:induction false} CutAt(before: string, sep: char, after: string)
    requires sep !in before
    ensures Cut(before + [sep] + after, sep) == Some((before, after))
  {
    var s := before + [sep] + after;
    if before == "" {
      assert s == [sep] + after;
    } else {
      assert s[0] == before[0] && s[1..] == before[1..] + [sep] + after;
      CutAt(before[1..], sep, after);
      assert [before[0]] + before[1..] == before;
    }
  }

  // ---- Texts made of parts without colons ----

  predicate ColonFree(parts: seq<string>) {
    forall i | 0 <= i < |parts| :: ':' !in parts[i]
  }

  /** Colon-free parts can be read back from their join. */
  lemma {:induction false} JoinInjective(a: seq<string>, b: seq<string>)
    requires a != [] && b != [] && ColonFree(a) && ColonFree(b) && Join(a, ":") == Join(b, ":")
    ensures a == b
  {
    JoinCut(a);
    JoinCut(b);
    if |a| > 1 && |b| > 1 {
      JoinInjective(a[1..], b[1..]);
      assert a == [a[0]] + a[1..] && b == [b[0]] + b[1..];
    }
  }

  lemma {:induction false} JoinCut(a: seq<string>)
    requires a != [] && ColonFree(a)
    ensures Cut(Join(a, ":"), ':') == if |a| == 1 then None else Some((a[0], Join(a[1..], ":")))
  {
    if |a| > 1 {
      CutAt(a[0], ':', Join(a[1..], ":"));
      assert a[0] + ":" + Join(a[1..], ":") == a[0] + [':'] + Join(a[1..], ":");
    }
  }

  /** The pieces of a text between its colons. */
  function Split(s: string): (r: seq<string>)
    ensures r != []
    decreases |s|
  {
    match Cut(s, ':')
    case None => [s]
    case Some((before, after)) => [before] + Split(after)
  }

  /** The pieces have no colon, and joining them gives the text back. */
  lemma {:induction false} SplitJoin(s: string)
    ensures ColonFree(Split(s)) && Join(Split(s), ":") == s
    decreases |s|
  {
    match Cut(s, ':')
    case None =>
    case Some((before, after)) =>
      SplitJoin(after);
      assert Split(s)[1..] == Split(after);
      assert before + ":" + after == before + [':'] + after;
  }

  /** A text without colons is its only piece. */
  lemma SplitPlain(s: string)
    requires ':' !in s
    ensures Split(s) == [s]
  {
  }

  /** ASCII lower case. The two patterns the services look for after lowering contain only letters
      that no other Unicode letter lowers to, so this is exact for them. */
  function Lower(s: string): (r: string)
    ensures |r| == |s|
  {
    seq(|s|, i requires 0 <= i < |s| =>
      if 'A' <= s[i] <= 'Z' then (s[i] as int + 32) as char else s[i])
  }

  predicate HasPrefix(s: string, prefix: string) {
    |prefix| <= |s| && s[..|prefix|] == prefix
  }

  predicate HasSuffix(s: string, suffix: string) {
    |suffix| <= |s| && s[|s| - |suffix|..] == suffix
  }
}
