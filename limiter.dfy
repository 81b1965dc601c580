/**
 * The response limiter (`limit_response`): shrinks a generated answer into a
 * short chat reply. The three regular expressions it applies are written out
 * here as scans over the string that follow Python's `re` engine: the
 * MULTILINE anchors, greedy quantifiers with backtracking, and the
 * left-to-right, non-overlapping search of `re.sub` and `re.split`.
 */
module Limiter {
  import opened Wrappers
  import opened Text

  predicate IsTerminator(c: char) { c == '.' || c == '!' || c == '?' }

  /** The bullet markers of the pattern `[-•]`. */
  predicate IsBullet(c: char) { c == '-' || c == '\U{2022}' }

  /** `^` under re.MULTILINE: the start of the string or just after a newline. */
  predicate AtLineStart(s: string, p: nat)
    requires p <= |s|
  {
    p == 0 || s[p - 1] == '\n'
  }

  /** End of the longest run of whitespace starting at `p` (greedy `\s*`). */
  function SpanSpaces(s: string, p: nat): (e: nat)
    requires p <= |s|
    ensures p <= e <= |s|
    ensures forall i :: p <= i < e ==> IsSpace(s[i])
    ensures e == |s| || !IsSpace(s[e])
    decreases |s| - p
  {
    if p < |s| && IsSpace(s[p]) then SpanSpaces(s, p + 1) else p
  }

  /** End of the longest run of '#' starting at `p`. */
  function SpanHashes(s: string, p: nat): (e: nat)
    requires p <= |s|
    ensures p <= e <= |s|
    ensures forall i :: p <= i < e ==> s[i] == '#'
    ensures e == |s| || s[e] != '#'
    decreases |s| - p
  {
    if p < |s| && s[p] == '#' then SpanHashes(s, p + 1) else p
  }

  /** Where `.*$` stops under re.MULTILINE: the next newline at or after `p`, or the end. */
  function LineEnd(s: string, p: nat): (e: nat)
    requires p <= |s|
    ensures p <= e <= |s|
    ensures forall i :: p <= i < e ==> s[i] != '\n'
    ensures e == |s| || s[e] == '\n'
    decreases |s| - p
  {
    if p < |s| && s[p] != '\n' then LineEnd(s, p + 1) else p
  }

  /**
   * The end of a match of `^\s*#{1,6}\s+.*$` (MULTILINE) that starts at `p`,
   * if there is one. `\s*` can only succeed at full length (the next
   * character must be '#'), so it swallows blank lines up to the '#'; the
   * whole run of '#' must be 1 to 6 long and followed by whitespace; `\s+`
   * takes the whole whitespace run after it, newlines included; `.*` then
   * runs to the end of that line.
   */
  function HeadingMatch(s: string, p: nat): (r: Option<nat>)
    requires p <= |s|
    ensures r.Some? ==> p < r.value <= |s| && AtLineStart(s, p)
    ensures r.Some? ==> r.value == |s| || s[r.value] == '\n'
    ensures r.Some? ==> exists e :: p <= e < r.value && s[e] == '#'
  {
    if !AtLineStart(s, p) then None
    else
      var e := SpanSpaces(s, p);
      var h := SpanHashes(s, e);
      if 1 <= h - e <= 6 && h < |s| && IsSpace(s[h]) then
        assert s[e] == '#';
        Some(LineEnd(s, SpanSpaces(s, h)))
      else None
  }

  /**
   * The end of a match of `^\s*[-•]\s+` (MULTILINE) that starts at `p`, if
   * there is one: optional whitespace (blank lines included), one bullet
   * marker, then the whole whitespace run after it, newlines included.
   */
  function BulletMatch(s: string, p: nat): (r: Option<nat>)
    requires p <= |s|
    ensures r.Some? ==> p < r.value <= |s| && AtLineStart(s, p)
    ensures r.Some? ==> r.value == |s| || !IsSpace(s[r.value])
    ensures r.Some? ==> exists e :: p <= e < r.value && IsBullet(s[e])
  {
    if !AtLineStart(s, p) then None
    else
      var e := SpanSpaces(s, p);
      if e + 1 < |s| && IsBullet(s[e]) && IsSpace(s[e + 1]) then Some(SpanSpaces(s, e + 1))
      else None
  }

  predicate HasHeading(s: string) {
    exists p :: 0 <= p < |s| && HeadingMatch(s, p).Some?
  }

  predicate HasBullet(s: string) {
    exists p :: 0 <= p < |s| && BulletMatch(s, p).Some?
  }

  /** `re.sub(heading, "", s, flags=re.MULTILINE)` on the part of `s` from `p` on. */
  function RemoveHeadings(s: string, p: nat): (r: string)
    requires p <= |s|
    ensures |r| <= |s| - p
    ensures (forall i :: p <= i < |s| ==> HeadingMatch(s, i).None?) ==> r == s[p..]
    decreases |s| - p
  {
    if p == |s| then []
    else match HeadingMatch(s, p)
      case Some(q) => RemoveHeadings(s, q)
      case None => [s[p]] + RemoveHeadings(s, p + 1)
  }

  /** `re.sub(bullet, "", s, flags=re.MULTILINE)` on the part of `s` from `p` on. */
  function RemoveBullets(s: string, p: nat): (r: string)
    requires p <= |s|
    ensures |r| <= |s| - p
    ensures (forall i :: p <= i < |s| ==> BulletMatch(s, i).None?) ==> r == s[p..]
    decreases |s| - p
  {
    if p == |s| then []
    else match BulletMatch(s, p)
      case Some(q) => RemoveBullets(s, q)
      case None => [s[p]] + RemoveBullets(s, p + 1)
  }

  /** A match of `(?<=[.!?])\s+` can start at `p`. */
  predicate IsBreakAt(s: string, p: int) {
    0 < p < |s| && IsTerminator(s[p - 1]) && IsSpace(s[p])
  }

  predicate HasBreak(s: string) {
    exists p :: 0 <= p < |s| && IsBreakAt(s, p)
  }

  /**
   * `re.split(r"(?<=[.!?])\s+", s)`, with the current piece starting at
   * `start` and the search at `p`: every match takes the whole whitespace
   * run after a terminator, and the pieces between matches are returned.
   */
  function SplitFrom(s: string, start: nat, p: nat): (parts: seq<string>)
    requires start <= p <= |s|
    ensures |parts| >= 1 && parts[0] <= s[start..]
    ensures start < |s| && (start < p || !IsBreakAt(s, p)) ==> parts[0] != []
    ensures (forall i :: p <= i < |s| ==> !IsBreakAt(s, i)) ==> parts == [s[start..]]
    decreases |s| - p
  {
    if p == |s| then [s[start..]]
    else if IsBreakAt(s, p) then
      var q := SpanSpaces(s, p);
      [s[start..p]] + SplitFrom(s, q, q)
    else SplitFrom(s, start, p + 1)
  }

  function SplitSentences(s: string): (parts: seq<string>)
    ensures |parts| >= 1 && parts[0] <= s
    ensures s != [] ==> parts[0] != []
    ensures !HasBreak(s) ==> parts == [s]
  {
    SplitFrom(s, 0, 0)
  }

  /** `" ".join(parts)`. */
  function Join(parts: seq<string>): (r: string)
    ensures parts != [] ==> parts[0] <= r
    ensures |parts| == 1 ==> r == parts[0]
    ensures parts == [] ==> r == []
  {
    if parts == [] then []
    else if |parts| == 1 then parts[0]
    else parts[0] + " " + Join(parts[1..])
  }

  /** `" ".join` puts every later part after the first, each after one space. */
  lemma JoinCons(first: string, rest: seq<string>)
    requires rest != []
    ensures Join([first] + rest) == first + " " + Join(rest)
  {
    assert ([first] + rest)[1..] == rest;
  }

  /** Every break is a single space, followed by the end of the text or by a non-whitespace character. */
  predicate SingleSpaceBreaks(s: string) {
    forall p :: 0 <= p < |s| && IsBreakAt(s, p) ==> s[p] == ' ' && (p + 1 == |s| || !IsSpace(s[p + 1]))
  }

  lemma {:induction false} SplitFromRejoins(s: string, start: nat, p: nat)
    requires start <= p <= |s| && SingleSpaceBreaks(s)
    ensures Join(SplitFrom(s, start, p)) == s[start..]
    decreases |s| - p
  {
    if p == |s| {
    } else if IsBreakAt(s, p) {
      var q := SpanSpaces(s, p);
      assert s[p] == ' ' && IsSpace(s[p]);
      assert SpanSpaces(s, p + 1) == p + 1;
      assert q == p + 1;
      var rest := SplitFrom(s, q, q);
      assert SplitFrom(s, start, p) == [s[start..p]] + rest;
      SplitFromRejoins(s, q, q);
      JoinCons(s[start..p], rest);
      assert s[start..] == s[start..p] + " " + s[q..];
    } else {
      assert SplitFrom(s, start, p) == SplitFrom(s, start, p + 1);
      SplitFromRejoins(s, start, p + 1);
    }
  }

  /** Where every break is one space, joining the pieces with spaces gives back the text. */
  lemma SplitSentencesRejoins(s: string)
    requires SingleSpaceBreaks(s)
    ensures Join(SplitSentences(s)) == s
  {
    SplitFromRejoins(s, 0, 0);
  }

  /** A stretch of the text with no break strictly inside it has no break of its own. */
  lemma PieceUnbroken(s: string, start: nat, e: nat)
    requires start <= e <= |s|
    requires forall i :: start < i < e ==> !IsBreakAt(s, i)
    ensures !HasBreak(s[start..e])
  {
    var piece := s[start..e];
    forall j | 0 <= j < |piece| ensures !IsBreakAt(piece, j) {
      if 0 < j {
        assert piece[j - 1] == s[start + j - 1] && piece[j] == s[start + j];
        assert !IsBreakAt(s, start + j);
      }
    }
  }

  /** No piece has a break of its own. */
  predicate AllUnbroken(parts: seq<string>) {
    forall k :: 0 <= k < |parts| ==> !HasBreak(parts[k])
  }

  lemma ConsUnbroken(piece: string, rest: seq<string>)
    requires !HasBreak(piece) && AllUnbroken(rest)
    ensures AllUnbroken([piece] + rest)
  {
    var parts := [piece] + rest;
    forall k | 0 <= k < |parts| ensures !HasBreak(parts[k]) {
      if k > 0 {
        assert parts[k] == rest[k - 1];
      }
    }
  }

  lemma {:induction false} SplitFromPiecesUnbroken(s: string, start: nat, p: nat)
    requires start <= p <= |s|
    requires forall i :: start < i < p ==> !IsBreakAt(s, i)
    ensures AllUnbroken(SplitFrom(s, start, p))
    decreases |s| - p
  {
    if p == |s| {
      assert s[start..p] == s[start..];
      assert SplitFrom(s, start, p) == [s[start..]];
      PieceUnbroken(s, start, p);
      ConsUnbroken(s[start..p], []);
      assert [s[start..p]] + [] == [s[start..p]];
    } else if IsBreakAt(s, p) {
      var q := SpanSpaces(s, p);
      assert SplitFrom(s, start, p) == [s[start..p]] + SplitFrom(s, q, q);
      PieceUnbroken(s, start, p);
      SplitFromPiecesUnbroken(s, q, q);
      ConsUnbroken(s[start..p], SplitFrom(s, q, q));
    } else {
      assert SplitFrom(s, start, p) == SplitFrom(s, start, p + 1);
      SplitFromPiecesUnbroken(s, start, p + 1);
    }
  }

  /** `re.split` cuts at every break: no piece contains a terminator followed by whitespace. */
  lemma SplitSentencesUnbroken(s: string)
    ensures AllUnbroken(SplitSentences(s))
  {
    assert SplitSentences(s) == SplitFrom(s, 0, 0);
    SplitFromPiecesUnbroken(s, 0, 0);
  }

  /** Every piece but the last is non-empty and ends in a terminator: the text is cut only at breaks. */
  predicate CutsAfterTerminators(parts: seq<string>) {
    forall k :: 0 <= k < |parts| - 1 ==> parts[k] != [] && IsTerminator(parts[k][|parts[k]| - 1])
  }

  lemma ConsCutsAfterTerminators(piece: string, rest: seq<string>)
    requires piece != [] && IsTerminator(piece[|piece| - 1]) && CutsAfterTerminators(rest)
    ensures CutsAfterTerminators([piece] + rest)
  {
    var parts := [piece] + rest;
    forall k | 0 <= k < |parts| - 1 ensures parts[k] != [] && IsTerminator(parts[k][|parts[k]| - 1]) {
      if k > 0 {
        assert parts[k] == rest[k - 1];
      }
    }
  }

  lemma {:induction false} SplitFromCutsAfterTerminators(s: string, start: nat, p: nat)
    requires start <= p <= |s|
    requires start == p ==> !IsBreakAt(s, p)
    ensures CutsAfterTerminators(SplitFrom(s, start, p))
    decreases |s| - p
  {
    if p == |s| {
      assert SplitFrom(s, start, p) == [s[start..]];
    } else if IsBreakAt(s, p) {
      var q := SpanSpaces(s, p);
      assert SplitFrom(s, start, p) == [s[start..p]] + SplitFrom(s, q, q);
      NoBreakAfterBreakRun(s, p);
      SplitFromCutsAfterTerminators(s, q, q);
      PieceBeforeBreak(s, start, p);
      ConsCutsAfterTerminators(s[start..p], SplitFrom(s, q, q));
    } else {
      assert SplitFrom(s, start, p) == SplitFrom(s, start, p + 1);
      SplitFromCutsAfterTerminators(s, start, p + 1);
    }
  }

  /** The whitespace run a break takes is not followed by another break. */
  lemma NoBreakAfterBreakRun(s: string, p: nat)
    requires p < |s| && IsBreakAt(s, p)
    ensures !IsBreakAt(s, SpanSpaces(s, p))
  {
    var q := SpanSpaces(s, p);
    assert q > p && IsSpace(s[q - 1]);
  }

  /** The piece ending at a break is non-empty and ends in the break's terminator. */
  lemma PieceBeforeBreak(s: string, start: nat, p: nat)
    requires start < p < |s| && IsBreakAt(s, p)
    ensures s[start..p] != [] && IsTerminator(s[start..p][p - start - 1])
  {
    assert s[start..p][p - start - 1] == s[p - 1];
  }

  /**
   * `re.split` cuts only at breaks: every piece but the last ends in the
   * terminator before the whitespace run it was cut at.
   */
  lemma SplitSentencesCutsAfterTerminators(s: string)
    ensures CutsAfterTerminators(SplitSentences(s))
  {
    assert SplitSentences(s) == SplitFrom(s, 0, 0);
    SplitFromCutsAfterTerminators(s, 0, 0);
  }

  /** The scan from `p` reaches the next break `b`: the piece in progress ends there. */
  lemma {:induction false} SplitFromUpToBreak(s: string, start: nat, p: nat, b: nat)
    requires start <= p <= b < |s| && IsBreakAt(s, b)
    requires forall i :: p <= i < b ==> !IsBreakAt(s, i)
    ensures SplitFrom(s, start, p) == [s[start..b]] + SplitFrom(s, SpanSpaces(s, b), SpanSpaces(s, b))
    decreases b - p
  {
    if p < b {
      SplitFromUpToBreak(s, start, p + 1, b);
    }
  }

  /** `t` is the text of `s` from position `q` on. */
  predicate SuffixAt(s: string, t: string, q: nat) {
    q <= |s| && |t| == |s| - q && forall i :: 0 <= i < |t| ==> t[i] == s[q + i]
  }

  /** The whitespace run from `q + i` in `s` ends where the run from `i` in its suffix `t` ends, shifted by `q`. */
  lemma {:induction false} ShiftSpanSpaces(s: string, t: string, q: nat, i: nat)
    requires SuffixAt(s, t, q) && i <= |t|
    ensures SpanSpaces(s, q + i) == q + SpanSpaces(t, i)
    decreases |t| - i
  {
    if i < |t| {
      assert t[i] == s[q + i];
      if IsSpace(t[i]) {
        ShiftSpanSpaces(s, t, q, i + 1);
      }
    }
  }

  /** Breaks of the suffix `t` are the breaks of `s` after `q`, when no terminator sits just before `q`. */
  lemma ShiftBreak(s: string, t: string, q: nat, c: nat)
    requires SuffixAt(s, t, q) && c < |t| && (q == 0 || !IsTerminator(s[q - 1]))
    ensures IsBreakAt(s, q + c) <==> IsBreakAt(t, c)
  {
    assert t[c] == s[q + c];
    if c > 0 {
      assert t[c - 1] == s[q + c - 1];
    }
  }

  /** The end case of `ShiftSplitFrom`: the last piece is the same text. */
  lemma ShiftSplitAtEnd(s: string, t: string, q: nat, a: nat)
    requires SuffixAt(s, t, q) && a <= |t|
    ensures SplitFrom(s, q + a, |s|) == SplitFrom(t, a, |t|)
  {
    assert s[q + a..] == t[a..];
  }

  /** A step of `ShiftSplitFrom` over a position that is a break in neither text. */
  lemma ShiftSplitPastNonBreak(s: string, t: string, q: nat, a: nat, c: nat)
    requires SuffixAt(s, t, q) && a <= c < |t| && !IsBreakAt(s, q + c) && !IsBreakAt(t, c)
    requires SplitFrom(s, q + a, q + c + 1) == SplitFrom(t, a, c + 1)
    ensures SplitFrom(s, q + a, q + c) == SplitFrom(t, a, c)
  {
  }

  /** Splitting the rest of `s` from `q` on is splitting its suffix `t`. */
  lemma {:induction false} ShiftSplitFrom(s: string, t: string, q: nat, a: nat, c: nat)
    requires SuffixAt(s, t, q) && a <= c <= |t| && (q == 0 || !IsTerminator(s[q - 1]))
    ensures SplitFrom(s, q + a, q + c) == SplitFrom(t, a, c)
    decreases |t| - c, 1
  {
    if c == |t| {
      ShiftSplitAtEnd(s, t, q, a);
    } else {
      ShiftBreak(s, t, q, c);
      if IsBreakAt(t, c) {
        ShiftSplitAtBreak(s, t, q, a, c);
      } else {
        ShiftSplitFrom(s, t, q, a, c + 1);
        ShiftSplitPastNonBreak(s, t, q, a, c);
      }
    }
  }

  /** The break step of `ShiftSplitFrom`: both texts cut here and resume after the same whitespace run. */
  lemma {:induction false} ShiftSplitAtBreak(s: string, t: string, q: nat, a: nat, c: nat)
    requires SuffixAt(s, t, q) && a <= c < |t| && (q == 0 || !IsTerminator(s[q - 1]))
    requires IsBreakAt(s, q + c) && IsBreakAt(t, c)
    ensures SplitFrom(s, q + a, q + c) == SplitFrom(t, a, c)
    decreases |t| - c, 0
  {
    var k := SpanSpaces(t, c);
    assert k > c;
    calc {
      SplitFrom(s, q + a, q + c);
      == { ShiftSpanSpaces(s, t, q, c); SplitFromAtBreak(s, q + a, q + c, q + k); }
      [s[q + a..q + c]] + SplitFrom(s, q + k, q + k);
      == { ShiftSplitFrom(s, t, q, k, k); assert s[q + a..q + c] == t[a..c]; }
      [t[a..c]] + SplitFrom(t, k, k);
      == { SplitFromAtBreak(t, a, c, k); }
      SplitFrom(t, a, c);
    }
  }

  /** At a break the split cuts and resumes after the whitespace run. */
  lemma SplitFromAtBreak(s: string, start: nat, p: nat, e: nat)
    requires start <= p < |s| && IsBreakAt(s, p) && e == SpanSpaces(s, p)
    ensures SplitFrom(s, start, p) == [s[start..p]] + SplitFrom(s, e, e)
  {
  }

  /**
   * The split unfolds at the first break, whatever whitespace run it is:
   * the first piece is the text before it, and the rest is the split of
   * the text after its whitespace run.
   */
  lemma SplitAtFirstBreak(s: string, b: nat)
    requires b < |s| && IsBreakAt(s, b)
    requires forall i :: 0 <= i < b ==> !IsBreakAt(s, i)
    ensures SplitSentences(s) == [s[..b]] + SplitSentences(s[SpanSpaces(s, b)..])
  {
    var q := SpanSpaces(s, b);
    var t := s[q..];
    assert SuffixAt(s, t, q);
    assert !IsTerminator(s[q - 1]) by {
      assert IsSpace(s[q - 1]);
    }
    calc {
      SplitSentences(s);
      SplitFrom(s, 0, 0);
      == { SplitFromUpToBreak(s, 0, 0, b); assert s[0..b] == s[..b]; }
      [s[..b]] + SplitFrom(s, q, q);
      == { ShiftSplitFrom(s, t, q, 0, 0); }
      [s[..b]] + SplitFrom(t, 0, 0);
      [s[..b]] + SplitSentences(t);
    }
  }

  /** The text after the three clean-up steps of `limit_response`. */
  function Clean(text: string): (r: string)
    ensures IsTrimmed(r)
  {
    Trim(RemoveBullets(Trim(RemoveHeadings(Trim(text), 0)), 0))
  }

  /** `" ".join(parts[:max_sentences])`, before `strip()` and the `or text` fallback. */
  function Lead(cleaned: string, maxSentences: int): (r: string)
    ensures maxSentences == 0 ==> r == []
    ensures 1 <= maxSentences && !HasBreak(cleaned) ==> r == cleaned
  {
    Join(PyPrefix(SplitSentences(cleaned), maxSentences))
  }

  /** The final cut: `short[:max_chars].rstrip()` when `short` is longer than `max_chars`. */
  function Cut(short: string, maxChars: int): (r: string)
    requires IsTrimmed(short)
    ensures r <= short && IsTrimmed(r)
    ensures 0 <= maxChars ==> |r| <= maxChars
    ensures |short| <= maxChars ==> r == short
    ensures 0 <= maxChars < |short| ==> AllSpace(short[|r|..maxChars])
  {
    if |short| > maxChars then TrimEnd(PyPrefix(short, maxChars)) else short
  }

  /** `limit_response(text, max_sentences, max_chars)`. */
  function LimitResponse(text: string, maxSentences: int, maxChars: int): (r: string)
    ensures text == [] ==> r == []
    ensures 0 <= maxChars ==> |r| <= maxChars
    ensures IsTrimmed(r)
  {
    if text == [] then text
    else
      var cleaned := Clean(text);
      var joined := Trim(Lead(cleaned, maxSentences));
      var short := if joined == [] then cleaned else joined;
      Cut(short, maxChars)
  }

  /**
   * The reply is a prefix of the first `max_sentences` pieces joined with
   * spaces, or, when that join is empty, a prefix of the cleaned text.
   */
  lemma LimitIsPrefixOfLead(text: string, maxSentences: int, maxChars: int)
    requires text != []
    ensures var cleaned := Clean(text);
            var lead := Lead(cleaned, maxSentences);
            (lead != [] ==> LimitResponse(text, maxSentences, maxChars) <= lead) &&
            (lead == [] ==> LimitResponse(text, maxSentences, maxChars) <= cleaned)
  {
    var cleaned := Clean(text);
    var parts := SplitSentences(cleaned);
    var kept := PyPrefix(parts, maxSentences);
    var lead := Join(kept);
    if lead != [] {
      assert kept != [] && kept[0] == parts[0];
      if cleaned == [] {
        assert false;
      }
      assert lead[0] == parts[0][0] == cleaned[0];
      TrimOfLeadingNonSpace(lead);
    }
  }

  /** The characters the three patterns key on: '#', the bullets and the terminators. */
  predicate IsMarkup(c: char) { c == '#' || IsBullet(c) || IsTerminator(c) }

  /**
   * When the cleaned text has no terminator followed by whitespace, the
   * reply is the cleaned text cut to `max_chars` characters, whatever
   * `max_sentences` is (with no pieces kept, `or text` restores it).
   */
  lemma UnbrokenTextIsOnlyCut(text: string, maxSentences: int, maxChars: int)
    requires text != [] && !HasBreak(Clean(text))
    ensures LimitResponse(text, maxSentences, maxChars) == Cut(Clean(text), maxChars)
  {
    var lead := Lead(Clean(text), maxSentences);
    assert lead == Clean(text) || lead == [];
  }

  /**
   * Trimmed text with no heading line, no bullet line and no terminator
   * followed by whitespace is only cut to `max_chars` characters and
   * right-trimmed.
   */
  lemma PlainTextIsOnlyCut(text: string, maxSentences: int, maxChars: int)
    requires text != [] && IsTrimmed(text)
    requires !HasHeading(text) && !HasBullet(text) && !HasBreak(text)
    ensures LimitResponse(text, maxSentences, maxChars) == Cut(text, maxChars)
  {
    CleanKeepsPlainText(text);
    UnbrokenTextIsOnlyCut(text, maxSentences, maxChars);
  }

  lemma CleanKeepsPlainText(text: string)
    requires IsTrimmed(text) && !HasHeading(text) && !HasBullet(text)
    ensures Clean(text) == text
  {
    assert RemoveHeadings(text, 0) == text;
    assert RemoveBullets(text, 0) == text;
  }

  /** Such text that already fits in `max_chars` comes back unchanged. */
  lemma ShortPlainTextUnchanged(text: string, maxSentences: int, maxChars: int)
    requires IsTrimmed(text) && |text| <= maxChars
    requires !HasHeading(text) && !HasBullet(text) && !HasBreak(text)
    ensures LimitResponse(text, maxSentences, maxChars) == text
  {
    if text != [] {
      PlainTextIsOnlyCut(text, maxSentences, maxChars);
    }
  }

  /** Text without any of the characters '#', '-', '•', '.', '!', '?' matches none of the three patterns. */
  lemma NoMarkupMatchesNothing(text: string)
    requires forall i :: 0 <= i < |text| ==> !IsMarkup(text[i])
    ensures !HasHeading(text) && !HasBullet(text) && !HasBreak(text)
  {
  }

  /** The requirements on a heading title and the one-line body after it. */
  predicate IsTitleLine(title: string) {
    title != [] && !IsSpace(title[0]) && forall i :: 0 <= i < |title| ==> title[i] != '\n'
  }

  predicate IsBodyLine(body: string) {
    body != [] && IsTrimmed(body) && body[0] != '#' && !IsBullet(body[0]) &&
    forall i :: 0 <= i < |body| ==> body[i] != '\n'
  }

  lemma HeadingLineMatches(title: string, body: string)
    requires IsTitleLine(title) && IsBodyLine(body)
    ensures HeadingMatch("# " + title + "\n" + body, 0) == Some(2 + |title|)
  {
    var s := "# " + title + "\n" + body;
    var k := 2 + |title|;
    assert s[0] == '#' && s[1] == ' ' && s[2] == title[0] && s[k] == '\n';
    assert SpanHashes(s, 1) == 1;
    assert SpanSpaces(s, 2) == 2;
  }

  lemma BodyLineMatchesNot(title: string, body: string)
    requires IsTitleLine(title) && IsBodyLine(body)
    ensures var s := "# " + title + "\n" + body;
            forall i :: 2 + |title| <= i < |s| ==> HeadingMatch(s, i).None?
  {
    var s := "# " + title + "\n" + body;
    var k := 2 + |title|;
    forall i | k <= i < |s| ensures HeadingMatch(s, i).None? {
      if i == k {
        assert s[k - 1] == title[|title| - 1];
      } else if i == k + 1 {
        assert s[i] == body[0];
        assert SpanSpaces(s, i) == i;
      } else {
        assert s[i - 1] == body[i - k - 2];
      }
    }
  }

  lemma BodyLineHasNoBullet(body: string)
    requires IsBodyLine(body)
    ensures RemoveBullets(body, 0) == body
  {
    forall i | 0 <= i < |body| ensures BulletMatch(body, i).None? {
      if i > 0 {
        assert body[i - 1] != '\n';
      }
    }
  }

  lemma HeadingPassLeavesBody(title: string, body: string)
    requires IsTitleLine(title) && IsBodyLine(body)
    ensures RemoveHeadings("# " + title + "\n" + body, 0) == "\n" + body
  {
    var s := "# " + title + "\n" + body;
    var k := 2 + |title|;
    HeadingLineMatches(title, body);
    BodyLineMatchesNot(title, body);
    assert RemoveHeadings(s, 0) == RemoveHeadings(s, k) == s[k..];
    assert s[k..] == "\n" + body;
  }

  lemma TrimAfterNewline(body: string)
    requires body != [] && IsTrimmed(body)
    ensures Trim("\n" + body) == body
  {
    TrimStartSkips("\n", body);
  }

  /**
   * A heading line "# <title>" at the start of the text is dropped with its
   * newline, leaving the one-line body after it.
   */
  lemma LeadingHeadingLineIsDropped(title: string, body: string)
    requires IsTitleLine(title) && IsBodyLine(body)
    ensures Clean("# " + title + "\n" + body) == body
  {
    var s := "# " + title + "\n" + body;
    assert s[0] == '#' && s[|s| - 1] == body[|body| - 1];
    assert Trim(s) == s;
    HeadingPassLeavesBody(title, body);
    TrimAfterNewline(body);
    BodyLineHasNoBullet(body);
  }

  /** The requirements on a one-line list item. */
  predicate IsItemLine(item: string) {
    item != [] && IsTrimmed(item) && forall i :: 0 <= i < |item| ==> item[i] != '\n'
  }

  lemma BulletAtItemStart(item: string)
    requires IsItemLine(item)
    ensures BulletMatch("- " + item, 0) == Some(2)
  {
    var s := "- " + item;
    assert s[0] == '-' && s[1] == ' ' && s[2] == item[0];
    assert SpanSpaces(s, 1) == 2;
  }

  lemma NoBulletInItem(item: string)
    requires IsItemLine(item)
    ensures forall i :: 2 <= i < |"- " + item| ==> BulletMatch("- " + item, i).None?
  {
    var s := "- " + item;
    forall i | 2 <= i < |s| ensures BulletMatch(s, i).None? {
      assert s[i - 1] == if i == 2 then ' ' else item[i - 3];
    }
  }

  lemma BulletLineMatchesOnce(item: string)
    requires IsItemLine(item)
    ensures RemoveBullets("- " + item, 0) == item
  {
    var s := "- " + item;
    BulletAtItemStart(item);
    NoBulletInItem(item);
    assert RemoveBullets(s, 0) == RemoveBullets(s, 2) == s[2..];
    assert s[2..] == item;
  }

  /**
   * The bullet of a one-line item "- <item>" is dropped, even when the item
   * itself is a heading: bullets are removed after headings.
   */
  lemma LeadingBulletIsDropped(item: string)
    requires IsItemLine(item)
    ensures Clean("- " + item) == item
  {
    var s := "- " + item;
    assert s[0] == '-' && s[|s| - 1] == item[|item| - 1];
    assert Trim(s) == s;
    ItemLineHasNoHeading(item);
    BulletLineMatchesOnce(item);
  }

  lemma ItemLineHasNoHeading(item: string)
    requires IsItemLine(item)
    ensures RemoveHeadings("- " + item, 0) == "- " + item
  {
    var s := "- " + item;
    forall i | 0 <= i < |s| ensures HeadingMatch(s, i).None? {
      if i == 0 {
        DashStartHasNoHeading(s);
      } else {
        ItemLineIsOneLine(item, i);
        MidLineHasNoHeading(s, i);
      }
    }
  }

  lemma DashStartHasNoHeading(s: string)
    requires s != [] && s[0] == '-'
    ensures HeadingMatch(s, 0).None?
  {
    assert SpanSpaces(s, 0) == 0 && SpanHashes(s, 0) == 0;
  }

  lemma ItemLineIsOneLine(item: string, i: nat)
    requires IsItemLine(item) && 0 < i <= |item| + 2
    ensures ("- " + item)[i - 1] != '\n'
  {
    var s := "- " + item;
    assert s[i - 1] == if i == 1 then '-' else if i == 2 then ' ' else item[i - 3];
  }

  lemma MidLineHasNoHeading(s: string, p: nat)
    requires 0 < p <= |s| && s[p - 1] != '\n'
    ensures HeadingMatch(s, p).None?
  {
  }

  /** A text that is a single heading line "# <title>" cleans to the empty string. */
  lemma HeadingOnlyIsDropped(title: string)
    requires IsTitleLine(title) && IsTrimmed(title)
    ensures Clean("# " + title) == []
  {
    var s := "# " + title;
    assert s[0] == '#' && s[|s| - 1] == title[|title| - 1];
    assert Trim(s) == s;
    HeadingOnlyMatches(title);
    assert RemoveHeadings(s, 0) == RemoveHeadings(s, |s|) == [];
  }

  lemma HeadingOnlyMatches(title: string)
    requires IsTitleLine(title)
    ensures HeadingMatch("# " + title, 0) == Some(|"# " + title|)
  {
    var s := "# " + title;
    assert s[0] == '#' && s[1] == ' ' && s[2] == title[0];
    assert forall i :: 2 <= i < |s| ==> s[i] == title[i - 2];
    assert SpanHashes(s, 1) == 1;
    assert SpanSpaces(s, 2) == 2;
  }

  /** The characters that start a heading or a bullet line: no '#' and no bullet marker. */
  predicate NoLineMarkers(s: string) {
    forall i :: 0 <= i < |s| ==> s[i] != '#' && !IsBullet(s[i])
  }

  /** A first sentence: non-empty, starting with text, ending in a terminator, and with no break inside. */
  predicate IsFirstSentence(first: string) {
    first != [] && !IsSpace(first[0]) && IsTerminator(first[|first| - 1]) && !HasBreak(first) && NoLineMarkers(first)
  }

  /** The text after the first sentence: trimmed, non-empty, with no heading or bullet marker. */
  predicate IsLaterText(rest: string) {
    rest != [] && IsTrimmed(rest) && NoLineMarkers(rest)
  }

  /** A sentence, one space, and more text: the sentence ends at the break after its terminator. */
  lemma SplitsAtFirstBreak(first: string, rest: string)
    requires IsFirstSentence(first) && IsLaterText(rest)
    ensures var t := first + " " + rest;
            SplitSentences(t) == [first] + SplitFrom(t, |first| + 1, |first| + 1)
  {
    var t := first + " " + rest;
    var b := |first|;
    forall i | 0 <= i < b ensures !IsBreakAt(t, i) {
      if 0 < i {
        assert t[i - 1] == first[i - 1] && t[i] == first[i];
        assert !IsBreakAt(first, i);
      }
    }
    assert t[b - 1] == first[b - 1] && t[b] == ' ' && t[b + 1] == rest[0];
    assert SpanSpaces(t, b + 1) == b + 1;
    SplitFromUpToBreak(t, 0, 0, b);
    assert t[..b] == first;
  }

  /** Text that is a plain sentence and then more text passes the clean-up unchanged. */
  lemma SentenceThenTextIsPlain(first: string, rest: string)
    requires IsFirstSentence(first) && IsLaterText(rest)
    ensures Clean(first + " " + rest) == first + " " + rest
  {
    var t := first + " " + rest;
    forall i | 0 <= i < |t| ensures t[i] != '#' && !IsBullet(t[i]) {
      if i < |first| {
        assert t[i] == first[i];
      } else if i > |first| {
        assert t[i] == rest[i - |first| - 1];
      }
    }
    assert t[0] == first[0] && t[|t| - 1] == rest[|rest| - 1];
    CleanKeepsPlainText(t);
  }

  /**
   * With `max_sentences` = 1, a plain first sentence followed by more text
   * is cut down to that sentence, and then to `max_chars` characters.
   */
  lemma FirstSentenceKept(first: string, rest: string, maxChars: int)
    requires IsFirstSentence(first) && IsLaterText(rest)
    ensures LimitResponse(first + " " + rest, 1, maxChars) == Cut(first, maxChars)
  {
    var t := first + " " + rest;
    SentenceThenTextIsPlain(first, rest);
    FirstSentenceLeads(first, rest);
    SentenceIsTrimmed(first);
    LimitOfNonEmptyLead(t, 1, maxChars);
  }

  lemma SentenceIsTrimmed(first: string)
    requires IsFirstSentence(first)
    ensures Trim(first) == first
  {
    assert !IsSpace(first[|first| - 1]);
  }

  /** When the kept pieces are not blank, the reply is their join, stripped and cut. */
  lemma LimitOfNonEmptyLead(text: string, maxSentences: int, maxChars: int)
    requires text != [] && Trim(Lead(Clean(text), maxSentences)) != []
    ensures LimitResponse(text, maxSentences, maxChars) == Cut(Trim(Lead(Clean(text), maxSentences)), maxChars)
  {
  }

  lemma FirstSentenceLeads(first: string, rest: string)
    requires IsFirstSentence(first) && IsLaterText(rest)
    ensures Lead(first + " " + rest, 1) == first
  {
    var t := first + " " + rest;
    SplitsAtFirstBreak(first, rest);
    var parts := SplitSentences(t);
    assert parts[0] == first;
    assert PyPrefix(parts, 1) == [first];
  }

  /** A sentence, one space, and text with no break of its own split into exactly those two pieces. */
  lemma TwoSentences(first: string, rest: string)
    requires IsFirstSentence(first) && IsLaterText(rest) && !HasBreak(rest)
    ensures SplitSentences(first + " " + rest) == [first, rest]
  {
    var t := first + " " + rest;
    var q := |first| + 1;
    SplitsAtFirstBreak(first, rest);
    forall i | q <= i < |t| ensures !IsBreakAt(t, i) {
      if i == q {
        assert t[i - 1] == ' ';
      } else {
        assert t[i - 1] == rest[i - 1 - q] && t[i] == rest[i - q];
        assert !IsBreakAt(rest, i - q);
      }
    }
    assert t[q..] == rest;
  }
}
