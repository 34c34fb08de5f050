/**
 * The Markdown sharder script: it cuts a document into one file per
 * level-2 section (ignoring headings inside code fences), lowers the
 * heading levels of each section by one, names each file after a slug of
 * its title and writes an index that links to every section.
 * File reading and writing are left to the caller: the model works on
 * the text and the list of lines.
 */
module ShardMd {
  import opened Wrappers
  import opened Text

  // ---------------------------------------------------------------------
  // slugify
  // ---------------------------------------------------------------------

  predicate IsSlugChar(c: char) {
    'a' <= c <= 'z' || '0' <= c <= '9' || c == '-'
  }

  predicate NoDoubleDash(s: string) {
    forall i :: 0 < i < |s| ==> !(s[i - 1] == '-' && s[i] == '-')
  }

  /** What a slug looks like: lower-case letters, digits and single dashes. */
  predicate IsSlug(s: string) {
    (forall i :: 0 <= i < |s| ==> IsSlugChar(s[i])) && NoDoubleDash(s)
  }

  /** The characters `[a-z0-9\s-]` keeps. */
  predicate Kept(c: char) {
    IsSlugChar(c) || IsWhitespace(c)
  }

  function LowerChar(c: char): char {
    if 'A' <= c <= 'Z' then (c as int + 32) as char else c
  }

  /** `toLowerCase` on the ASCII letters. */
  function LowerAscii(s: string): string {
    seq(|s|, i requires 0 <= i < |s| => LowerChar(s[i]))
  }

  /** `replace(/[^a-z0-9\s-]/g, '')`: drop every other character. */
  function KeepSlugChars(s: string): (r: string)
    ensures forall i :: 0 <= i < |r| ==> Kept(r[i])
    ensures (forall i :: 0 <= i < |s| ==> Kept(s[i])) ==> r == s
  {
    if s == [] then []
    else if Kept(s[0]) then [s[0]] + KeepSlugChars(s[1..])
    else KeepSlugChars(s[1..])
  }

  /** `replace(/\s+/g, '-')`: each maximal run of whitespace becomes one
      dash; `inRun` says the previous character was whitespace. */
  function DashForWhitespace(s: string, inRun: bool): (r: string)
    ensures forall i :: 0 <= i < |r| ==> !IsWhitespace(r[i])
    ensures (forall i :: 0 <= i < |s| ==> Kept(s[i])) ==> forall i :: 0 <= i < |r| ==> IsSlugChar(r[i])
    ensures (forall i :: 0 <= i < |s| ==> !IsWhitespace(s[i])) ==> r == s
  {
    if s == [] then []
    else if IsWhitespace(s[0]) then (if inRun then [] else ['-']) + DashForWhitespace(s[1..], true)
    else [s[0]] + DashForWhitespace(s[1..], false)
  }

  /** `replace(/-+/g, '-')`: each maximal run of dashes becomes one dash;
      `inRun` says the previous character was a dash. */
  function SqueezeDashes(s: string, inRun: bool): (r: string)
    ensures (forall i :: 0 <= i < |s| ==> IsSlugChar(s[i])) ==>
              IsSlug(r) && (inRun ==> r == [] || r[0] != '-')
    ensures NoDoubleDash(s) && (inRun ==> s == [] || s[0] != '-') ==> r == s
  {
    if s == [] then []
    else if s[0] == '-' then (if inRun then [] else ['-']) + SqueezeDashes(s[1..], true)
    else [s[0]] + SqueezeDashes(s[1..], false)
  }

  /** Whether a whitespace run is open after `s`, starting with `inRun`. */
  function WhitespaceRunAfter(s: string, inRun: bool): bool {
    if s == [] then inRun else IsWhitespace(s[|s| - 1])
  }

  /** Whether a dash run is open after `s`, starting with `inRun`. */
  function DashRunAfter(s: string, inRun: bool): bool {
    if s == [] then inRun else s[|s| - 1] == '-'
  }

  /** With `KeepCharAlone`, this fixes `KeepSlugChars` on every input: the
      text is processed piece by piece. */
  lemma {:induction false} KeepSlugCharsAppend(a: string, b: string)
    ensures KeepSlugChars(a + b) == KeepSlugChars(a) + KeepSlugChars(b)
    decreases |a|
  {
    if a == [] {
      assert a + b == b;
    } else {
      assert (a + b)[0] == a[0] && (a + b)[1..] == a[1..] + b;
      KeepSlugCharsAppend(a[1..], b);
    }
  }

  /** A kept character stays, any other character goes. */
  lemma KeepCharAlone(c: char)
    ensures KeepSlugChars([c]) == if Kept(c) then [c] else []
  {
    assert [c][1..] == [];
  }

  /** With `DashCharAlone`, this fixes `DashForWhitespace` on every input:
      the text is processed piece by piece, and a whitespace run may span
      the two pieces. */
  lemma {:induction false} DashForWhitespaceAppend(a: string, b: string, inRun: bool)
    ensures DashForWhitespace(a + b, inRun) == DashForWhitespace(a, inRun) + DashForWhitespace(b, WhitespaceRunAfter(a, inRun))
    decreases |a|
  {
    if a == [] {
      assert a + b == b;
    } else {
      var ws := IsWhitespace(a[0]);
      var head := if ws then (if inRun then [] else ['-']) else [a[0]];
      assert (a + b)[0] == a[0] && (a + b)[1..] == a[1..] + b;
      assert DashForWhitespace(a + b, inRun) == head + DashForWhitespace(a[1..] + b, ws);
      assert DashForWhitespace(a, inRun) == head + DashForWhitespace(a[1..], ws);
      DashForWhitespaceAppend(a[1..], b, ws);
      assert WhitespaceRunAfter(a[1..], ws) == WhitespaceRunAfter(a, inRun) by {
        if a[1..] != [] { assert a[1..][|a| - 2] == a[|a| - 1]; }
      }
      AppendAssoc(head, DashForWhitespace(a[1..], ws), DashForWhitespace(b, WhitespaceRunAfter(a, inRun)));
    }
  }

  /** A whitespace character opening a run becomes '-', one continuing a
      run goes, any other character stays. */
  lemma DashCharAlone(c: char, inRun: bool)
    ensures DashForWhitespace([c], inRun) == if !IsWhitespace(c) then [c] else if inRun then [] else "-"
  {
    assert [c][1..] == [];
  }

  /** With `SqueezeCharAlone`, this fixes `SqueezeDashes` on every input:
      the text is processed piece by piece, and a dash run may span the two
      pieces. */
  lemma {:induction false} SqueezeDashesAppend(a: string, b: string, inRun: bool)
    ensures SqueezeDashes(a + b, inRun) == SqueezeDashes(a, inRun) + SqueezeDashes(b, DashRunAfter(a, inRun))
    decreases |a|
  {
    if a == [] {
      assert a + b == b;
    } else {
      var dash := a[0] == '-';
      var head := if dash then (if inRun then [] else ['-']) else [a[0]];
      assert (a + b)[0] == a[0] && (a + b)[1..] == a[1..] + b;
      assert SqueezeDashes(a + b, inRun) == head + SqueezeDashes(a[1..] + b, dash);
      assert SqueezeDashes(a, inRun) == head + SqueezeDashes(a[1..], dash);
      SqueezeDashesAppend(a[1..], b, dash);
      assert DashRunAfter(a[1..], dash) == DashRunAfter(a, inRun) by {
        if a[1..] != [] { assert a[1..][|a| - 2] == a[|a| - 1]; }
      }
      AppendAssoc(head, SqueezeDashes(a[1..], dash), SqueezeDashes(b, DashRunAfter(a, inRun)));
    }
  }

  /** A dash opening a run stays, one continuing a run goes, any other
      character stays. */
  lemma SqueezeCharAlone(c: char, inRun: bool)
    ensures SqueezeDashes([c], inRun) == if c != '-' then [c] else if inRun then [] else "-"
  {
    assert [c][1..] == [];
  }

  /** Trimming keeps a substring, so every character it keeps was there. */
  lemma TrimKeepsKept(s: string)
    requires forall i :: 0 <= i < |s| ==> Kept(s[i])
    ensures forall i :: 0 <= i < |Trim(s)| ==> Kept(Trim(s)[i])
  {
    var u := TrimStart(s);
    var t := TrimEnd(u);
    forall i | 0 <= i < |t|
      ensures Kept(t[i])
    {
      assert t[i] == u[i] == s[|s| - |u| + i];
    }
  }

  /** A character that is not in a string is not in its trim either. */
  lemma TrimKeepsOut(s: string, c: char)
    requires c !in s
    ensures c !in TrimStart(s) && c !in Trim(s)
  {
  }

  /** `slugify(title)`. */
  function Slugify(title: string): (slug: string)
    ensures IsSlug(slug)
  {
    var kept := KeepSlugChars(LowerAscii(title));
    TrimKeepsKept(kept);
    SqueezeDashes(DashForWhitespace(Trim(kept), false), false)
  }

  /** A title with an upper-case letter, a dropped character and a space:
      each step of `slugify` in turn. */
  lemma SlugifyExample()
    ensures Slugify("A& b") == "a-b"
  {
    LowerExample();
    KeepExample();
    TrimProperties("a b");
    DashExample();
    SqueezeExample();
  }

  lemma LowerExample()
    ensures LowerAscii("A& b") == "a& b"
  {
  }

  lemma KeepExample()
    ensures KeepSlugChars("a& b") == "a b"
  {
  }

  lemma DashExample()
    ensures DashForWhitespace("a b", false) == "a-b"
  {
  }

  lemma SqueezeExample()
    ensures SqueezeDashes("a-b", false) == "a-b"
  {
  }

  lemma SlugCharIsPlain(c: char)
    requires IsSlugChar(c)
    ensures !IsWhitespace(c) && c != '/' && c != '.' && LowerChar(c) == c && Kept(c)
  {
  }

  /** Every step of `slugify` leaves a slug as it is. */
  lemma SlugPassesThrough(s: string)
    requires IsSlug(s)
    ensures LowerAscii(s) == s
    ensures KeepSlugChars(s) == s
    ensures Trim(s) == s
    ensures DashForWhitespace(s, false) == s
    ensures SqueezeDashes(s, false) == s
  {
    forall i | 0 <= i < |s|
      ensures !IsWhitespace(s[i]) && LowerChar(s[i]) == s[i] && Kept(s[i])
    {
      SlugCharIsPlain(s[i]);
    }
    TrimProperties(s);
  }

  /** A slug is its own slug. */
  lemma SlugifyIdempotent(title: string)
    ensures Slugify(Slugify(title)) == Slugify(title)
  {
    var s := Slugify(title);
    SlugPassesThrough(s);
  }

  /** A slug never holds whitespace, a path separator or a dot, so the
      section file `<slug>.md` stays inside the destination folder. */
  lemma SlugIsPlainFileName(title: string)
    ensures forall i :: 0 <= i < |Slugify(title)| ==>
              !IsWhitespace(Slugify(title)[i]) && Slugify(title)[i] != '/' && Slugify(title)[i] != '.'
  {
    var s := Slugify(title);
    forall i | 0 <= i < |s|
      ensures !IsWhitespace(s[i]) && s[i] != '/' && s[i] != '.'
    {
      SlugCharIsPlain(s[i]);
    }
  }

  // ---------------------------------------------------------------------
  // adjustHeadingLevels
  // ---------------------------------------------------------------------

  /** The number of '#' characters a line starts with. */
  function LeadingHashes(s: string): (n: nat)
    ensures n <= |s|
    ensures forall i :: 0 <= i < n ==> s[i] == '#'
    ensures n == |s| || s[n] != '#'
  {
    if s != [] && s[0] == '#' then 1 + LeadingHashes(s[1..]) else 0
  }

  function Hashes(n: nat): string {
    seq(n, _ => '#')
  }

  /** Whether a line matches `^(#{2,6})\s+(.*)$`. The hash run must be the
      whole run of leading '#', the whitespace run is taken whole, and `.`
      refuses line terminators, so what follows it must have none. */
  predicate HeadingMatches(line: string) {
    var n := LeadingHashes(line);
    2 <= n <= 6 && n < |line| && IsWhitespace(line[n]) && NoLineTerminator(TrimStart(line[n..]))
  }

  /** The text captured by `(.*)`: the line after its hashes and the whitespace run. */
  function HeadingText(line: string): string
    requires LeadingHashes(line) <= |line|
  {
    TrimStart(line[LeadingHashes(line)..])
  }

  /** The per-line rewrite of `adjustHeadingLevels`: a fence line stays, a
      matching heading loses one '#' and its whitespace run becomes one
      space, and every other line stays. `Math.max(1, n - 1)` is `n - 1`
      because a matching heading has at least two '#'. */
  function AdjustLine(line: string): string {
    if StartsWith(line, "```") then line
    else if HeadingMatches(line) then Hashes(LeadingHashes(line) - 1) + " " + HeadingText(line)
    else line
  }

  /** The shape of a rewritten heading: k hashes, one space, then text
      that does not start with whitespace. */
  lemma RewriteShape(k: nat, t: string)
    requires t == [] || !IsWhitespace(t[0])
    ensures var r := Hashes(k) + " " + t;
            LeadingHashes(r) == k && r[k] == ' ' && r[k + 1..] == t && TrimStart(r[k..]) == t
  {
    var r := Hashes(k) + " " + t;
    assert r[k] == ' ';
    assert forall i :: 0 <= i < k ==> r[i] == '#';
    assert r[k..] == " " + t;
    assert (" " + t)[1..] == t;
  }

  /** What the rewrite does to one line: a level-k heading (2 <= k <= 6)
      becomes a level-(k-1) heading with the same text and exactly one
      space after the hashes; everything else, "#" headings included, is
      left alone. */
  lemma AdjustLineSpec(line: string)
    ensures var r := AdjustLine(line);
            HeadingMatches(line) ==>
              LeadingHashes(r) == LeadingHashes(line) - 1 && r[LeadingHashes(r)] == ' ' &&
              HeadingText(r) == HeadingText(line) && r[LeadingHashes(r) + 1..] == HeadingText(line)
    ensures !HeadingMatches(line) ==> AdjustLine(line) == line
    ensures LeadingHashes(line) <= 1 ==> AdjustLine(line) == line
  {
    if HeadingMatches(line) {
      assert !StartsWith(line, "```") by { assert line[0] == '#'; }
      RewriteShape(LeadingHashes(line) - 1, HeadingText(line));
    }
  }

  /** The rewrite never introduces a newline. */
  lemma AdjustLineNoNewline(line: string)
    requires '\n' !in line
    ensures '\n' !in AdjustLine(line)
  {
    if HeadingMatches(line) && !StartsWith(line, "```") {
      var n := LeadingHashes(line);
      var t := HeadingText(line);
      assert '\n' !in line[n..];
      TrimKeepsOut(line[n..], '\n');
      assert '\n' !in Hashes(n - 1);
      NotInThree('\n', Hashes(n - 1), " ", t);
    }
  }

  lemma NotInThree(c: char, a: string, b: string, d: string)
    requires c !in a && c !in b && c !in d
    ensures c !in a + b + d
  {
  }

  function AdjustLines(lines: seq<string>): seq<string> {
    seq(|lines|, i requires 0 <= i < |lines| => AdjustLine(lines[i]))
  }

  /** `adjustHeadingLevels(content)`. */
  function AdjustHeadingLevels(content: string): string {
    Join(AdjustLines(Split(content, '\n')), '\n')
  }

  /** The rewrite keeps the number of lines, and line i of the result is
      the per-line rewrite of line i of the input. */
  lemma AdjustHeadingLevelsByLine(content: string)
    ensures var before := Split(content, '\n');
            var after := Split(AdjustHeadingLevels(content), '\n');
            |after| == |before| && forall i :: 0 <= i < |before| ==> after[i] == AdjustLine(before[i])
  {
    var before := Split(content, '\n');
    var adjusted := AdjustLines(before);
    forall i | 0 <= i < |adjusted|
      ensures '\n' !in adjusted[i]
    {
      AdjustLineNoNewline(before[i]);
    }
    SplitJoin(adjusted, '\n');
  }

  /** Content with no heading to rewrite comes back unchanged. */
  lemma AdjustWithoutHeadings(content: string)
    requires forall i :: 0 <= i < |Split(content, '\n')| ==> !HeadingMatches(Split(content, '\n')[i])
    ensures AdjustHeadingLevels(content) == content
  {
    var before := Split(content, '\n');
    forall i | 0 <= i < |before|
      ensures AdjustLines(before)[i] == before[i]
    {
      AdjustLineSpec(before[i]);
    }
    assert AdjustLines(before) == before;
    JoinSplit(content, '\n');
  }

  // ---------------------------------------------------------------------
  // shardMd: lines, fences and sections
  // ---------------------------------------------------------------------

  function DropCarriageReturn(piece: string): (r: string)
    ensures '\n' !in piece ==> '\n' !in r
  {
    if piece != [] && piece[|piece| - 1] == '\r' then piece[..|piece| - 1] else piece
  }

  /** `raw.split(/\r?\n/)`: split at each newline, and a carriage return
      just before a newline belongs to the separator. */
  function SplitLines(raw: string): (lines: seq<string>)
    ensures |lines| == |Split(raw, '\n')|
    ensures forall i :: 0 <= i < |lines| ==> '\n' !in lines[i]
  {
    DropFinalReturns(Split(raw, '\n'))
  }

  /** Every piece but the last loses a final carriage return. */
  function DropFinalReturns(pieces: seq<string>): (r: seq<string>)
    ensures |r| == |pieces|
    ensures (forall i :: 0 <= i < |pieces| ==> '\n' !in pieces[i]) ==> forall i :: 0 <= i < |r| ==> '\n' !in r[i]
  {
    seq(|pieces|, i requires 0 <= i < |pieces| =>
      if i < |pieces| - 1 then DropCarriageReturn(pieces[i]) else pieces[i])
  }

  /** The text with every `\r\n` turned into `\n`; a carriage return
      anywhere else stays. */
  function NormaliseLineEnds(s: string): string
    decreases |s|
  {
    if s == [] then []
    else if s[0] == '\r' && |s| >= 2 && s[1] == '\n' then NormaliseLineEnds(s[1..])
    else [s[0]] + NormaliseLineEnds(s[1..])
  }

  /** Splitting on `/\r?\n/` is splitting on '\n' after turning every
      `\r\n` into `\n`, and the lines joined with '\n' give that text. */
  lemma SplitLinesSpec(raw: string)
    ensures Join(SplitLines(raw), '\n') == NormaliseLineEnds(raw)
    ensures SplitLines(raw) == Split(NormaliseLineEnds(raw), '\n')
  {
    JoinSplit(raw, '\n');
    JoinDropsReturns(Split(raw, '\n'));
    SplitJoin(SplitLines(raw), '\n');
  }

  /** Text with no carriage return splits into its '\n' pieces and
      joins back. */
  lemma SplitLinesWithoutCarriageReturns(raw: string)
    requires '\r' !in raw
    ensures SplitLines(raw) == Split(raw, '\n')
    ensures Join(SplitLines(raw), '\n') == raw
  {
    SplitLinesSpec(raw);
    NormaliseWithout(raw, '\r');
  }

  /** Text missing either half of `\r\n` has nothing to normalise. */
  lemma {:induction false} NormaliseWithout(s: string, c: char)
    requires c == '\r' || c == '\n'
    requires c !in s
    ensures NormaliseLineEnds(s) == s
    decreases |s|
  {
    if s != [] {
      NormaliseWithout(s[1..], c);
      assert [s[0]] + s[1..] == s;
    }
  }

  lemma {:induction false} JoinDropsReturns(pieces: seq<string>)
    requires |pieces| >= 1
    requires forall i :: 0 <= i < |pieces| ==> '\n' !in pieces[i]
    ensures Join(DropFinalReturns(pieces), '\n') == NormaliseLineEnds(Join(pieces, '\n'))
    decreases |pieces|
  {
    var dropped := DropFinalReturns(pieces);
    if |pieces| == 1 {
      NormaliseWithout(pieces[0], '\n');
    } else {
      var tail := pieces[1..];
      assert forall i :: 0 <= i < |tail| ==> '\n' !in tail[i] by {
        forall i | 0 <= i < |tail| ensures '\n' !in tail[i] {
          assert tail[i] == pieces[i + 1];
        }
      }
      JoinDropsReturns(tail);
      assert dropped[0] == DropCarriageReturn(pieces[0]);
      assert dropped[1..] == DropFinalReturns(tail);
      assert Join(dropped, '\n') == dropped[0] + ['\n'] + Join(dropped[1..], '\n');
      assert Join(pieces, '\n') == pieces[0] + ['\n'] + Join(tail, '\n');
      NormaliseAtNewline(pieces[0], Join(tail, '\n'));
    }
  }

  /** At a newline, the piece before it loses a final carriage return. */
  lemma {:induction false} NormaliseAtNewline(a: string, b: string)
    requires '\n' !in a
    ensures NormaliseLineEnds(a + ['\n'] + b) == DropCarriageReturn(a) + ['\n'] + NormaliseLineEnds(b)
    decreases |a|
  {
    var s := a + ['\n'] + b;
    if a == [] {
      assert s == ['\n'] + b && s[1..] == b;
    } else if a == ['\r'] {
      assert s[0] == '\r' && s[1] == '\n' && s[1..] == ['\n'] + b && (['\n'] + b)[1..] == b;
    } else {
      assert s == a + (['\n'] + b);
      NormaliseFirst(a, ['\n'] + b);
      assert a[1..] + (['\n'] + b) == a[1..] + ['\n'] + b;
      NormaliseAtNewline(a[1..], b);
      DropReturnOfLonger(a);
      AppendAssoc([a[0]], DropCarriageReturn(a[1..]), ['\n'] + NormaliseLineEnds(b));
    }
  }

  /** Outside a final lone carriage return, the first character of a
      piece without newlines passes through unchanged. */
  lemma NormaliseFirst(a: string, rest: string)
    requires a != [] && a != ['\r'] && '\n' !in a
    ensures NormaliseLineEnds(a + rest) == [a[0]] + NormaliseLineEnds(a[1..] + rest)
  {
    var s := a + rest;
    assert s[0] == a[0] && s[1..] == a[1..] + rest;
    if |a| >= 2 {
      assert s[1] == a[1];
    }
  }

  lemma DropReturnOfLonger(a: string)
    requires a != [] && a != ['\r']
    ensures DropCarriageReturn(a) == [a[0]] + DropCarriageReturn(a[1..])
  {
    if |a| >= 2 {
      assert a[1..][|a| - 2] == a[|a| - 1];
      assert a[1..][..|a| - 2] == a[1..|a| - 1];
    } else {
      assert a[1..] == [] && a == [a[0]];
    }
  }

  /** `/^```(.*)$/`: three backticks and no line terminator after them. */
  predicate FenceLine(line: string) {
    StartsWith(line, "```") && NoLineTerminator(line[3..])
  }

  /** `/^##\s+/`. */
  predicate H2Line(line: string) {
    |line| > 2 && line[0] == '#' && line[1] == '#' && IsWhitespace(line[2])
  }

  /** `line.replace(/^##\s+/, '').trim()`. */
  function HeadingTitle(line: string): string
    requires H2Line(line)
  {
    Trim(TrimStart(line[2..]))
  }

  /** A title counts only when it is a non-empty string (`null` and `""`
      are both falsy). */
  predicate Truthy(title: Option<string>) {
    title.Some? && title.value != []
  }

  datatype Section = Section(title: string, lines: seq<string>)

  /** The section being collected; its title is `null` before the first heading. */
  datatype Pending = Pending(title: Option<string>, lines: seq<string>)

  datatype ShardState = ShardState(inFence: bool, fenceTag: string, sections: seq<Section>,
                                   current: Pending, preface: seq<string>)

  const Start := ShardState(false, [], [], Pending(None, []), [])

  /** One pass of the loop body on `line`. */
  function Step(st: ShardState, line: string): ShardState {
    var inFence := if FenceLine(line) then !st.inFence else st.inFence;
    var fenceTag := if !FenceLine(line) then st.fenceTag else if !st.inFence then line[3..] else [];
    if !inFence && H2Line(line) then
      var sections := if Truthy(st.current.title)
                      then st.sections + [Section(st.current.title.value, st.current.lines)]
                      else st.sections;
      ShardState(inFence, fenceTag, sections, Pending(Some(HeadingTitle(line)), [line]), st.preface)
    else if Truthy(st.current.title) then
      ShardState(inFence, fenceTag, st.sections, Pending(st.current.title, st.current.lines + [line]), st.preface)
    else
      ShardState(inFence, fenceTag, st.sections, st.current, st.preface + [line])
  }

  /** The loop state after the given lines. */
  function Run(lines: seq<string>): ShardState {
    if lines == [] then Start else Step(Run(lines[..|lines| - 1]), lines[|lines| - 1])
  }

  datatype Outline = Outline(sections: seq<Section>, preface: seq<string>)

  /** After the loop, a pending section with a title is pushed. */
  function Finish(st: ShardState): Outline {
    Outline(if Truthy(st.current.title)
            then st.sections + [Section(st.current.title.value, st.current.lines)]
            else st.sections,
            st.preface)
  }

  function OutlineOf(lines: seq<string>): Outline {
    Finish(Run(lines))
  }

  /** The sectioning loop of `shardMd` (its lines 50-80). */
  method ShardLines(lines: seq<string>) returns (sections: seq<Section>, preface: seq<string>)
    ensures Outline(sections, preface) == OutlineOf(lines)
  {
    var inFence := false;
    var fenceTag: string := [];
    sections := [];
    var currentTitle: Option<string> := None;
    var currentLines: seq<string> := [];
    preface := [];
    var i := 0;
    while i < |lines|
      invariant 0 <= i <= |lines|
      invariant ShardState(inFence, fenceTag, sections, Pending(currentTitle, currentLines), preface)
                == Run(lines[..i])
    {
      var line := lines[i];
      ghost var before := ShardState(inFence, fenceTag, sections, Pending(currentTitle, currentLines), preface);
      if FenceLine(line) {
        var tag := line[3..];
        if !inFence {
          inFence := true;
          fenceTag := tag;
        } else {
          inFence := false;
          fenceTag := [];
        }
      }
      var isH2 := !inFence && H2Line(line);
      if isH2 {
        if currentTitle.Some? && currentTitle.value != [] {
          sections := sections + [Section(currentTitle.value, currentLines)];
        }
        currentTitle := Some(HeadingTitle(line));
        currentLines := [line];
      } else {
        if currentTitle.Some? && currentTitle.value != [] {
          currentLines := currentLines + [line];
        } else {
          preface := preface + [line];
        }
      }
      assert ShardState(inFence, fenceTag, sections, Pending(currentTitle, currentLines), preface)
             == Step(before, line);
      RunStep(lines[..i + 1]);
      assert lines[..i + 1][..i] == lines[..i];
      i := i + 1;
    }
    assert lines[..i] == lines;
    if currentTitle.Some? && currentTitle.value != [] {
      sections := sections + [Section(currentTitle.value, currentLines)];
    }
  }

  // ---------------------------------------------------------------------
  // What the loop computes
  // ---------------------------------------------------------------------

  /** Whether there is an odd number of fence lines among `lines`. */
  function OddFences(lines: seq<string>): bool {
    if lines == [] then false
    else OddFences(lines[..|lines| - 1]) != FenceLine(lines[|lines| - 1])
  }

  /** The fence flag toggles on every fence line: after the lines, the loop
      is inside a fence exactly when it has seen an odd number of them, and
      outside a fence no tag is remembered. */
  lemma {:induction false} FenceParity(lines: seq<string>)
    ensures Run(lines).inFence <==> OddFences(lines)
    ensures !Run(lines).inFence ==> Run(lines).fenceTag == []
  {
    if lines != [] {
      var n := |lines| - 1;
      FenceParity(lines[..n]);
      StepFence(Run(lines[..n]), lines[n]);
      assert Run(lines) == Step(Run(lines[..n]), lines[n]);
    }
  }

  /** What one step does to the sections, the pending section and the preface. */
  lemma StepSections(st: ShardState, line: string)
    ensures var next := Step(st, line);
            !next.inFence && H2Line(line) ==>
              next.sections == Finish(st).sections && next.preface == st.preface &&
              next.current == Pending(Some(HeadingTitle(line)), [line])
    ensures var next := Step(st, line);
            !(!next.inFence && H2Line(line)) ==> StaysPut(st, next, line)
  {
  }

  /** A line that opens no section joins the pending section, or the
      preface when no section is pending. */
  predicate StaysPut(st: ShardState, next: ShardState, line: string) {
    next.sections == st.sections &&
    (Truthy(st.current.title) ==>
       next.current == Pending(st.current.title, st.current.lines + [line]) && next.preface == st.preface) &&
    (!Truthy(st.current.title) ==> next.current == st.current && next.preface == st.preface + [line])
  }

  lemma StepFence(st: ShardState, line: string)
    ensures Step(st, line).inFence == (if FenceLine(line) then !st.inFence else st.inFence)
    ensures Step(st, line).fenceTag ==
            (if !FenceLine(line) then st.fenceTag else if !st.inFence then line[3..] else [])
  {
  }

  /** Line i is a level-2 heading and is not inside a fence (line i itself
      is counted, as the loop toggles the fence flag before testing). */
  predicate OutsideFenceH2(lines: seq<string>, i: int)
    requires 0 <= i < |lines|
  {
    H2Line(lines[i]) && !OddFences(lines[..i + 1])
  }

  /** The lines that open a section, in order: outside-fence level-2
      headings whose title is not blank. */
  function SectionHeads(lines: seq<string>): (heads: seq<string>)
    ensures forall k :: 0 <= k < |heads| ==> heads[k] in lines
  {
    if lines == [] then []
    else
      var n := |lines| - 1;
      assert lines[..n + 1] == lines;
      var prior := SectionHeads(lines[..n]);
      assert forall k :: 0 <= k < |prior| ==> prior[k] in lines;
      prior + (if OutsideFenceH2(lines, n) && HeadingTitle(lines[n]) != [] then [lines[n]] else [])
  }

  /** A section as the loop builds it: it starts with its level-2 heading
      line and is titled by that heading's non-blank text. */
  predicate WellFormedSection(s: Section) {
    |s.lines| >= 1 && H2Line(s.lines[0]) && s.title == HeadingTitle(s.lines[0]) && s.title != []
  }

  function Head(s: Section): string {
    if s.lines == [] then [] else s.lines[0]
  }

  function Heads(sections: seq<Section>): seq<string> {
    seq(|sections|, k requires 0 <= k < |sections| => Head(sections[k]))
  }

  lemma HeadsAppend(a: seq<Section>, b: seq<Section>)
    ensures Heads(a + b) == Heads(a) + Heads(b)
  {
  }

  lemma RunStep(lines: seq<string>)
    requires lines != []
    ensures Run(lines) == Step(Run(lines[..|lines| - 1]), lines[|lines| - 1])
  {
  }

  predicate StateWellFormed(st: ShardState) {
    (forall k :: 0 <= k < |st.sections| ==> WellFormedSection(st.sections[k])) &&
    (Truthy(st.current.title) ==> WellFormedSection(Section(st.current.title.value, st.current.lines)))
  }

  lemma StepWellFormed(st: ShardState, line: string)
    requires StateWellFormed(st)
    ensures StateWellFormed(Step(st, line))
  {
    var next := Step(st, line);
    StepSections(st, line);
    if !next.inFence && H2Line(line) {
      OpeningWellFormed(st, next, line);
    } else {
      StayingWellFormed(st, next, line);
    }
  }

  lemma OpeningWellFormed(st: ShardState, next: ShardState, line: string)
    requires StateWellFormed(st) && H2Line(line)
    requires next.sections == Finish(st).sections
    requires next.current == Pending(Some(HeadingTitle(line)), [line])
    ensures StateWellFormed(next)
  {
    FinishWellFormed(st);
    assert WellFormedSection(Section(HeadingTitle(line), [line])) || HeadingTitle(line) == [];
  }

  lemma StayingWellFormed(st: ShardState, next: ShardState, line: string)
    requires StateWellFormed(st)
    requires StaysPut(st, next, line)
    ensures StateWellFormed(next)
  {
    if Truthy(st.current.title) {
      assert next.current.lines[0] == st.current.lines[0];
    }
  }

  /** The sections of a well-formed state, once the pending one is pushed,
      are all well formed. */
  lemma FinishWellFormed(st: ShardState)
    requires StateWellFormed(st)
    ensures forall k :: 0 <= k < |Finish(st).sections| ==> WellFormedSection(Finish(st).sections[k])
  {
    var all := Finish(st).sections;
    forall k | 0 <= k < |all|
      ensures WellFormedSection(all[k])
    {
      if k < |st.sections| {
        assert all[k] == st.sections[k];
      }
    }
  }

  lemma {:induction false} RunWellFormed(lines: seq<string>)
    ensures StateWellFormed(Run(lines))
  {
    if lines != [] {
      var n := |lines| - 1;
      RunWellFormed(lines[..n]);
      RunStep(lines);
      StepWellFormed(Run(lines[..n]), lines[n]);
    }
  }

  lemma StepHeads(st: ShardState, line: string)
    requires Truthy(st.current.title) ==> st.current.lines != []
    ensures var next := Step(st, line);
            Heads(Finish(next).sections) == Heads(Finish(st).sections) +
              (if !next.inFence && H2Line(line) && HeadingTitle(line) != [] then [line] else [])
  {
    var next := Step(st, line);
    StepSections(st, line);
    if !next.inFence && H2Line(line) {
      var title := HeadingTitle(line);
      assert Finish(next).sections == Finish(st).sections + (if title != [] then [Section(title, [line])] else []);
      OpeningHeads(Finish(st).sections, title, line, Finish(next).sections);
    } else {
      StayingHeads(st, next, line);
    }
  }

  lemma StayingHeads(st: ShardState, next: ShardState, line: string)
    requires Truthy(st.current.title) ==> st.current.lines != []
    requires StaysPut(st, next, line)
    ensures Heads(Finish(next).sections) == Heads(Finish(st).sections)
  {
    if Truthy(st.current.title) {
      GrowingHeads(st.sections, st.current.title.value, st.current.lines, line, Finish(next).sections);
    }
  }

  lemma OpeningHeads(prior: seq<Section>, title: string, line: string, after: seq<Section>)
    requires after == prior + (if title != [] then [Section(title, [line])] else [])
    ensures Heads(after) == Heads(prior) + (if title != [] then [line] else [])
  {
    if title != [] {
      HeadsAppend(prior, [Section(title, [line])]);
    }
  }

  lemma GrowingHeads(done: seq<Section>, title: string, lines: seq<string>, line: string, after: seq<Section>)
    requires lines != []
    requires after == done + [Section(title, lines + [line])]
    ensures Heads(after) == Heads(done + [Section(title, lines)])
  {
    HeadsAppend(done, [Section(title, lines + [line])]);
    HeadsAppend(done, [Section(title, lines)]);
  }

  lemma {:induction false} RunHeads(lines: seq<string>)
    ensures Heads(Finish(Run(lines)).sections) == SectionHeads(lines)
  {
    if lines != [] {
      var n := |lines| - 1;
      RunHeads(lines[..n]);
      RunWellFormed(lines[..n]);
      FenceParity(lines);
      RunStep(lines);
      assert lines[..n + 1] == lines;
      StepHeads(Run(lines[..n]), lines[n]);
    }
  }

  /** Every section starts with a level-2 heading outside any fence and is
      titled by that heading's trimmed text; the sections start, in order,
      at exactly the outside-fence level-2 headings with a non-blank title.
      Headings inside a fence therefore never start a section. */
  lemma SectionsStartAtHeadings(lines: seq<string>)
    ensures var o := OutlineOf(lines);
            (forall k :: 0 <= k < |o.sections| ==> WellFormedSection(o.sections[k])) &&
            Heads(o.sections) == SectionHeads(lines)
  {
    RunWellFormed(lines);
    FinishWellFormed(Run(lines));
    RunHeads(lines);
  }

  /** No outside-fence level-2 heading has a blank title. */
  predicate NoBlankHeadings(lines: seq<string>) {
    forall i :: 0 <= i < |lines| && OutsideFenceH2(lines, i) ==> HeadingTitle(lines[i]) != []
  }

  /** The lines of the sections, one section after another. */
  function Flatten(sections: seq<Section>): seq<string> {
    if sections == [] then [] else Flatten(sections[..|sections| - 1]) + sections[|sections| - 1].lines
  }

  lemma FlattenAppend(sections: seq<Section>, s: Section)
    ensures Flatten(sections + [s]) == Flatten(sections) + s.lines
  {
    assert (sections + [s])[..|sections|] == sections;
  }

  /** The lines the loop has placed so far, in output order. */
  function Placed(st: ShardState): seq<string> {
    st.preface + Flatten(st.sections) + (if Truthy(st.current.title) then st.current.lines else [])
  }

  /** Before the first titled heading nothing has gone into a section. */
  predicate NothingPending(st: ShardState) {
    !Truthy(st.current.title) ==> st.sections == [] && st.current.lines == []
  }

  lemma OpeningPlaces(st: ShardState, next: ShardState, line: string, title: string)
    requires NothingPending(st)
    requires title != []
    requires next.sections == Finish(st).sections && next.preface == st.preface
    requires next.current == Pending(Some(title), [line])
    ensures NothingPending(next) && Placed(next) == Placed(st) + [line]
  {
    if Truthy(st.current.title) {
      FlattenAppend(st.sections, Section(st.current.title.value, st.current.lines));
    }
  }

  lemma StayingPlaces(st: ShardState, next: ShardState, line: string)
    requires NothingPending(st)
    requires StaysPut(st, next, line)
    ensures NothingPending(next) && Placed(next) == Placed(st) + [line]
  {
  }

  lemma DropLastAppend<T>(s: seq<T>)
    requires s != []
    ensures s[..|s| - 1] + [s[|s| - 1]] == s
  {
  }

  /** One step places exactly its own line, provided a level-2 heading it
      opens has a title. */
  lemma StepPlaces(st: ShardState, line: string)
    requires NothingPending(st)
    requires !Step(st, line).inFence && H2Line(line) ==> HeadingTitle(line) != []
    ensures NothingPending(Step(st, line)) && Placed(Step(st, line)) == Placed(st) + [line]
  {
    var next := Step(st, line);
    StepSections(st, line);
    if !next.inFence && H2Line(line) {
      OpeningPlaces(st, next, line, HeadingTitle(line));
    } else {
      StayingPlaces(st, next, line);
    }
  }

  /** Dropping the last line keeps every remaining heading titled. */
  lemma NoBlankHeadingsInPrefix(lines: seq<string>)
    requires lines != [] && NoBlankHeadings(lines)
    ensures NoBlankHeadings(lines[..|lines| - 1])
  {
    var init := lines[..|lines| - 1];
    forall i | 0 <= i < |init| && OutsideFenceH2(init, i)
      ensures HeadingTitle(init[i]) != []
    {
      assert init[..i + 1] == lines[..i + 1];
      assert OutsideFenceH2(lines, i);
    }
  }

  /** The last line, if it opens a section, has a title. */
  lemma LastHeadingTitled(lines: seq<string>)
    requires lines != [] && NoBlankHeadings(lines)
    ensures var last := lines[|lines| - 1];
            H2Line(last) && !Run(lines).inFence ==> HeadingTitle(last) != []
  {
    var n := |lines| - 1;
    FenceParity(lines);
    assert lines[..n + 1] == lines;
    if H2Line(lines[n]) && !Run(lines).inFence {
      assert OutsideFenceH2(lines, n);
    }
  }

  lemma {:induction false} RunReassembles(lines: seq<string>)
    requires NoBlankHeadings(lines)
    ensures NothingPending(Run(lines))
    ensures Placed(Run(lines)) == lines
  {
    if lines != [] {
      var n := |lines| - 1;
      var init := lines[..n];
      NoBlankHeadingsInPrefix(lines);
      RunReassembles(init);
      LastHeadingTitled(lines);
      RunStep(lines);
      StepPlaces(Run(init), lines[n]);
      DropLastAppend(lines);
    }
  }

  /** With no blank level-2 title, the preface followed by the sections'
      lines, in order, is exactly the input: no line is lost, repeated or
      moved. */
  lemma Reassemble(lines: seq<string>)
    requires NoBlankHeadings(lines)
    ensures OutlineOf(lines).preface + Flatten(OutlineOf(lines).sections) == lines
  {
    RunReassembles(lines);
    FinishPlaces(Run(lines));
  }

  /** Pushing the pending section keeps the placed lines in order. */
  lemma FinishPlaces(st: ShardState)
    ensures Finish(st).preface + Flatten(Finish(st).sections) == Placed(st)
  {
    if Truthy(st.current.title) {
      var last := Section(st.current.title.value, st.current.lines);
      FlattenAppend(st.sections, last);
      AppendAssoc(st.preface, Flatten(st.sections), last.lines);
    } else {
      AppendEmpty(st.preface + Flatten(st.sections));
    }
  }

  lemma AppendAssoc<T>(a: seq<T>, b: seq<T>, c: seq<T>)
    ensures a + (b + c) == a + b + c
  {
  }

  lemma AppendEmpty<T>(a: seq<T>)
    ensures a + [] == a
  {
  }

  /** A level-2 heading with a blank title, such as "## ", outside a fence:
      it closes the pending section but opens none, so the heading itself is
      never written, and the next line that opens no section goes to the
      preface rather than to a section. */
  lemma BlankHeadingDropped(st: ShardState, line: string, body: string)
    requires H2Line(line) && HeadingTitle(line) == [] && !Step(st, line).inFence
    requires !(!Step(Step(st, line), body).inFence && H2Line(body))
    ensures var next := Step(st, line);
            Finish(next) == Outline(Finish(st).sections, st.preface) &&
            Finish(Step(next, body)) == Outline(Finish(st).sections, st.preface + [body])
  {
    var next := Step(st, line);
    StepSections(st, line);
    StepSections(next, body);
  }

  /** "## " is such a heading: level 2, with a blank title. */
  lemma TitleOfBlank()
    ensures H2Line("## ") && HeadingTitle("## ") == []
  {
    assert "## "[2..] == " ";
    assert TrimStart(" ") == [] by { assert " "[1..] == []; }
  }

  // ---------------------------------------------------------------------
  // The index and the section files
  // ---------------------------------------------------------------------

  /** `- [title](./slug.md)`. */
  function LinkLine(s: Section): string {
    "- [" + s.title + "](./" + Slugify(s.title) + ".md)"
  }

  function Links(sections: seq<Section>): seq<string> {
    seq(|sections|, k requires 0 <= k < |sections| => LinkLine(sections[k]))
  }

  /** The text of index.md. */
  function IndexText(o: Outline): string {
    Trim(Join(o.preface, '\n')) + "\n\n## Sections\n" + Join(Links(o.sections), '\n') + "\n"
  }

  /** Splitting at a separator splits both sides of it. */
  lemma {:induction false} SplitAround(a: string, b: string, sep: char)
    ensures Split(a + [sep] + b, sep) == Split(a, sep) + Split(b, sep)
  {
    if a != [] {
      SplitAround(a[1..], b, sep);
      assert (a + [sep] + b)[1..] == a[1..] + [sep] + b;
    }
  }

  lemma LinkLineHasNoNewline(s: Section)
    requires '\n' !in s.title
    ensures '\n' !in LinkLine(s)
  {
    var slug := Slugify(s.title);
    SlugHasNoNewline(slug);
    LinkMarkupHasNoNewline();
    NotInFive('\n', "- [", s.title, "](./", slug, ".md)");
  }

  lemma LinkMarkupHasNoNewline()
    ensures '\n' !in "- [" && '\n' !in "](./" && '\n' !in ".md)"
  {
    assert forall i :: 0 <= i < |"- ["| ==> "- ["[i] != '\n';
    assert forall i :: 0 <= i < |"](./"| ==> "](./"[i] != '\n';
    assert forall i :: 0 <= i < |".md)"| ==> ".md)"[i] != '\n';
  }

  lemma SlugHasNoNewline(slug: string)
    requires IsSlug(slug)
    ensures '\n' !in slug
  {
    forall i | 0 <= i < |slug|
      ensures slug[i] != '\n'
    {
      assert IsSlugChar(slug[i]);
    }
  }

  lemma NotInFive(c: char, a: string, b: string, d: string, e: string, f: string)
    requires c !in a && c !in b && c !in d && c !in e && c !in f
    ensures c !in a + b + d + e + f
  {
  }

  lemma IndexLayout(p: string, j: string)
    ensures p + "\n\n## Sections\n" + j + "\n" == p + ['\n'] + ([] + ['\n'] + ("## Sections" + ['\n'] + (j + ['\n'] + [])))
  {
    assert "\n\n## Sections\n" == ['\n'] + ['\n'] + "## Sections" + ['\n'];
  }

  lemma SplitLayout(p: string, h: string, j: string)
    requires '\n' !in h
    ensures Split(p + ['\n'] + ([] + ['\n'] + (h + ['\n'] + (j + ['\n'] + []))), '\n') ==
            Split(p, '\n') + [[], h] + Split(j, '\n') + [[]]
  {
    SplitAfterBlankLine(h, j);
    SplitAround(p, [] + ['\n'] + (h + ['\n'] + (j + ['\n'] + [])), '\n');
  }

  lemma SplitAfterBlankLine(h: string, j: string)
    requires '\n' !in h
    ensures Split([] + ['\n'] + (h + ['\n'] + (j + ['\n'] + [])), '\n') == [[], h] + Split(j, '\n') + [[]]
  {
    var tail := h + ['\n'] + (j + ['\n'] + []);
    SplitAfterHeading(h, j);
    SplitPrefix([], tail, '\n');
    PrependPiece([], h, Split(j, '\n'), []);
  }

  lemma PrependPiece<T>(x: T, h: T, mid: seq<T>, e: T)
    ensures [x] + ([h] + mid + [e]) == [x, h] + mid + [e]
  {
  }

  lemma SplitAfterHeading(h: string, j: string)
    requires '\n' !in h
    ensures Split(h + ['\n'] + (j + ['\n'] + []), '\n') == [h] + Split(j, '\n') + [[]]
  {
    SplitEndingInSeparator(j, '\n');
    SplitPrefix(h, j + ['\n'] + [], '\n');
  }

  lemma SplitEndingInSeparator(j: string, sep: char)
    ensures Split(j + [sep] + [], sep) == Split(j, sep) + [[]]
  {
    SplitAround(j, [], sep);
  }

  lemma IndexSplit(p: string, j: string)
    ensures Split(p + "\n\n## Sections\n" + j + "\n", '\n') == Split(p, '\n') + [[], "## Sections"] + Split(j, '\n') + [[]]
  {
    IndexLayout(p, j);
    SplitLayout(p, "## Sections", j);
  }

  /** The lines of index.md: the trimmed preface, a blank line, the
      "## Sections" heading, then one link per section, in section order. */
  lemma IndexLines(o: Outline)
    requires forall k :: 0 <= k < |o.sections| ==> '\n' !in o.sections[k].title
    ensures Split(IndexText(o), '\n') ==
            Split(Trim(Join(o.preface, '\n')), '\n') + [[], "## Sections"] +
            (if o.sections == [] then [[]] else Links(o.sections)) + [[]]
  {
    var links := Links(o.sections);
    IndexSplit(Trim(Join(o.preface, '\n')), Join(links, '\n'));
    if o.sections != [] {
      forall k | 0 <= k < |links|
        ensures '\n' !in links[k]
      {
        LinkLineHasNoNewline(o.sections[k]);
      }
      SplitJoin(links, '\n');
    }
  }

  /** For input lines without newlines (as `SplitLines` gives), the index
      lists every section of the outline, one link per line, each to the
      file named after the slug of its title. */
  lemma IndexLinksEverySection(lines: seq<string>)
    requires forall i :: 0 <= i < |lines| ==> '\n' !in lines[i]
    ensures var o := OutlineOf(lines);
            Split(IndexText(o), '\n') ==
            Split(Trim(Join(o.preface, '\n')), '\n') + [[], "## Sections"] +
            (if o.sections == [] then [[]] else Links(o.sections)) + [[]]
  {
    var o := OutlineOf(lines);
    SectionsStartAtHeadings(lines);
    forall k | 0 <= k < |o.sections|
      ensures '\n' !in o.sections[k].title
    {
      var head := o.sections[k].lines[0];
      assert Heads(o.sections)[k] == head;
      assert head in lines;
      assert '\n' !in head;
      assert '\n' !in head[2..];
      TrimKeepsOut(head[2..], '\n');
      TrimKeepsOut(TrimStart(head[2..]), '\n');
    }
    IndexLines(o);
  }

  /** The name of a section's file. */
  function SectionFileName(s: Section): string {
    Slugify(s.title) + ".md"
  }

  /** The text of a section's file. */
  function SectionFileBody(s: Section): string {
    Trim(AdjustHeadingLevels(Join(s.lines, '\n'))) + "\n"
  }

  lemma {:induction false} SplitFirstIsPrefix(x: string, sep: char)
    ensures StartsWith(x, Split(x, sep)[0])
  {
    if x != [] {
      SplitFirstIsPrefix(x[1..], sep);
    }
  }

  /** Trimming keeps a prefix that neither starts nor ends with whitespace. */
  lemma TrimKeepsPrefix(x: string, p: string)
    requires StartsWith(x, p) && p != []
    requires !IsWhitespace(p[0]) && !IsWhitespace(p[|p| - 1])
    ensures StartsWith(Trim(x), p)
  {
    assert x[0] == p[0];
    assert TrimStart(x) == x;
  }

  /** The adjusted text of a section starts with the rewrite of its first line. */
  lemma AdjustedStartsWithFirstLine(lines: seq<string>)
    requires |lines| >= 1
    requires forall i :: 0 <= i < |lines| ==> '\n' !in lines[i]
    ensures StartsWith(AdjustHeadingLevels(Join(lines, '\n')), AdjustLine(lines[0]))
  {
    var body := Join(lines, '\n');
    SplitJoin(lines, '\n');
    AdjustHeadingLevelsByLine(body);
    SplitFirstIsPrefix(AdjustHeadingLevels(body), '\n');
  }

  lemma H2Hashes(head: string)
    requires H2Line(head)
    ensures LeadingHashes(head) == 2
  {
    assert LeadingHashes(head) >= 2;
  }

  lemma H2Matches(head: string)
    requires H2Line(head) && NoLineTerminator(head)
    ensures HeadingMatches(head) && HeadingText(head) == TrimStart(head[2..])
  {
    H2Hashes(head);
    var rest := head[2..];
    var text := TrimStart(rest);
    assert text == rest[|rest| - |text|..];
  }

  /** A level-2 heading line is rewritten to a level-1 heading. */
  lemma PromotedHeading(head: string)
    requires H2Line(head) && NoLineTerminator(head)
    ensures AdjustLine(head) == "# " + TrimStart(head[2..])
  {
    var text := TrimStart(head[2..]);
    assert AdjustLine(head) == Hashes(1) + " " + text by {
      H2Hashes(head);
      H2Matches(head);
      HashLineIsNoFence(head);
    }
    OneHashSpace(text);
  }

  lemma HashLineIsNoFence(line: string)
    requires line != [] && line[0] == '#'
    ensures !StartsWith(line, "```")
  {
    assert "```"[0] == '`';
  }

  lemma OneHashSpace(t: string)
    ensures Hashes(1) + " " + t == "# " + t
  {
    assert Hashes(1) == "#";
  }

  lemma TrimAfterTrimStart(t: string)
    requires t == [] || !IsWhitespace(t[0])
    ensures Trim(t) == TrimEnd(t)
  {
  }

  lemma PrefixAfterMark(t: string, u: string)
    requires StartsWith(t, u)
    ensures StartsWith("# " + t, "# " + u)
  {
    assert ("# " + t)[..|u| + 2] == "# " + t[..|u|];
  }

  /** The promoted heading begins with "# " and the title, whose last
      character is not whitespace. */
  lemma PromotedHeadingCarriesTitle(head: string)
    requires H2Line(head) && HeadingTitle(head) != []
    ensures StartsWith("# " + TrimStart(head[2..]), "# " + HeadingTitle(head))
    ensures !IsWhitespace(HeadingTitle(head)[|HeadingTitle(head)| - 1])
  {
    PromotedStartsWithTitle(head);
    TitleEndsPlain(head);
  }

  lemma TitleEndsPlain(head: string)
    requires H2Line(head) && HeadingTitle(head) != []
    ensures !IsWhitespace(HeadingTitle(head)[|HeadingTitle(head)| - 1])
  {
    TrimProperties(TrimStart(head[2..]));
  }

  lemma PromotedStartsWithTitle(head: string)
    requires H2Line(head) && HeadingTitle(head) != []
    ensures StartsWith("# " + TrimStart(head[2..]), "# " + HeadingTitle(head))
  {
    var text := TrimStart(head[2..]);
    var title := HeadingTitle(head);
    assert title == TrimEnd(text) by {
      TrimAfterTrimStart(text);
    }
    assert StartsWith(text, title);
    PrefixAfterMark(text, title);
  }

  lemma StartsWithTransitive(x: string, y: string, z: string)
    requires StartsWith(x, y) && StartsWith(y, z)
    ensures StartsWith(x, z)
  {
    assert x[..|z|] == y[..|y|][..|z|];
  }

  /** A section's file is the section with every heading lowered one level:
      it starts with its own heading as a level-1 heading carrying the
      section title. */
  lemma SectionFileStartsWithTitle(s: Section)
    requires WellFormedSection(s)
    requires forall i :: 0 <= i < |s.lines| ==> '\n' !in s.lines[i]
    requires NoLineTerminator(s.lines[0])
    ensures StartsWith(SectionFileBody(s), "# " + s.title)
  {
    var adjusted := AdjustHeadingLevels(Join(s.lines, '\n'));
    AdjustedSectionStartsWithTitle(s.lines, s.title);
    SectionTitleEndsPlain(s);
    TitledBodyKeepsPrefix(adjusted, s.title);
  }

  /** A section title, being trimmed, does not end with whitespace. */
  lemma SectionTitleEndsPlain(s: Section)
    requires WellFormedSection(s)
    ensures !IsWhitespace(s.title[|s.title| - 1])
  {
    TrimProperties(TrimStart(s.lines[0][2..]));
  }

  lemma TitledBodyKeepsPrefix(adjusted: string, title: string)
    requires StartsWith(adjusted, "# " + title)
    requires title != [] && !IsWhitespace(title[|title| - 1])
    ensures StartsWith(Trim(adjusted) + "\n", "# " + title)
  {
    TitledPrefix(title);
    TrimmedBodyKeepsPrefix(adjusted, "# " + title);
  }

  lemma AdjustedSectionStartsWithTitle(lines: seq<string>, title: string)
    requires |lines| >= 1 && H2Line(lines[0]) && title == HeadingTitle(lines[0]) && title != []
    requires forall i :: 0 <= i < |lines| ==> '\n' !in lines[i]
    requires NoLineTerminator(lines[0])
    ensures StartsWith(AdjustHeadingLevels(Join(lines, '\n')), "# " + title)
  {
    AdjustedStartsWithFirstLine(lines);
    PromotedHeading(lines[0]);
    PromotedHeadingCarriesTitle(lines[0]);
    StartsWithTransitive(AdjustHeadingLevels(Join(lines, '\n')), AdjustLine(lines[0]), "# " + title);
  }

  lemma TitledPrefix(title: string)
    requires title != [] && !IsWhitespace(title[|title| - 1])
    ensures var p := "# " + title; !IsWhitespace(p[0]) && !IsWhitespace(p[|p| - 1])
  {
  }

  lemma TrimmedBodyKeepsPrefix(adjusted: string, p: string)
    requires StartsWith(adjusted, p) && p != []
    requires !IsWhitespace(p[0]) && !IsWhitespace(p[|p| - 1])
    ensures StartsWith(Trim(adjusted) + "\n", p)
  {
    TrimKeepsPrefix(adjusted, p);
    StartsWithTransitive(Trim(adjusted) + "\n", Trim(adjusted), p);
  }
}
