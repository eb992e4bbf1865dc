/**
 * The per-line logic of the program loader: a line's command is the text
 * before its first '#', with surrounding whitespace stripped; a line whose
 * command is empty stores nothing, and every other line stores its base-2
 * value at the next address, starting from 0.
 */
module Ls8Loader {

  /** Python's str.isspace() for one character: the ASCII blanks and
      separators and the Unicode spaces; never a digit or '#'. */
  predicate IsSpace(c: char)
  {
    var n := c as int;
    (9 <= n <= 13) || (28 <= n <= 32) || n == 0x85 || n == 0xA0 || n == 0x1680 ||
    (0x2000 <= n <= 0x200A) || n == 0x2028 || n == 0x2029 || n == 0x202F ||
    n == 0x205F || n == 0x3000
  }

  /** The text before the first '#': `line.split('#')[0]`. */
  function BeforeHash(s: string): (r: string)
    ensures |r| <= |s| && r == s[..|r|]
    ensures '#' !in r
    ensures |r| < |s| ==> s[|r|] == '#'
  {
    if s == [] || s[0] == '#' then [] else [s[0]] + BeforeHash(s[1..])
  }

  /** How many whitespace characters `s` starts with. */
  function LeadingSpaces(s: string): (n: nat)
    ensures n <= |s|
    ensures forall k :: 0 <= k < n ==> IsSpace(s[k])
    ensures n < |s| ==> !IsSpace(s[n])
  {
    if s != [] && IsSpace(s[0]) then 1 + LeadingSpaces(s[1..]) else 0
  }

  /** How many whitespace characters `s` ends with. */
  function TrailingSpaces(s: string): (n: nat)
    ensures n <= |s|
    ensures forall k :: |s| - n <= k < |s| ==> IsSpace(s[k])
    ensures n < |s| ==> !IsSpace(s[|s| - n - 1])
  {
    if s != [] && IsSpace(s[|s| - 1]) then 1 + TrailingSpaces(s[..|s| - 1]) else 0
  }

  /** `s.lstrip()`. */
  function TrimLeft(s: string): string
  {
    s[LeadingSpaces(s)..]
  }

  /** `s.rstrip()`. */
  function TrimRight(s: string): string
  {
    s[..|s| - TrailingSpaces(s)]
  }

  /** `s.strip()`. */
  function Trim(s: string): string
  {
    TrimRight(TrimLeft(s))
  }

  /** `line.split('#')[0].strip()`: the command a line holds, "" for a blank or comment-only line. */
  function Command(line: string): string
  {
    Trim(BeforeHash(line))
  }

  predicate IsBinary(s: string)
  {
    forall k :: 0 <= k < |s| ==> s[k] == '0' || s[k] == '1'
  }

  function Pow2(n: nat): (p: nat)
    ensures p >= 1
  {
    if n == 0 then 1 else 2 * Pow2(n - 1)
  }

  /** `int(s, 2)` for a string of binary digits, most significant first. */
  function ParseBinary(s: string): (v: nat)
    requires IsBinary(s)
    ensures v < Pow2(|s|)
  {
    if s == [] then 0
    else 2 * ParseBinary(s[..|s| - 1]) + (if s[|s| - 1] == '1' then 1 else 0)
  }

  /** The line is blank, comment-only, or holds a base-2 literal of digits 0 and 1. */
  predicate LoadableLine(line: string)
  {
    IsBinary(Command(line))
  }

  predicate Loadable(lines: seq<string>)
  {
    forall i :: 0 <= i < |lines| ==> LoadableLine(lines[i])
  }

  /** The values the lines store, in address order. */
  function Program(lines: seq<string>): (p: seq<nat>)
    requires Loadable(lines)
    ensures |p| <= |lines|
  {
    if lines == [] then []
    else
      var c := Command(lines[|lines| - 1]);
      var init := Program(lines[..|lines| - 1]);
      if c == [] then init else init + [ParseBinary(c)]
  }

  /** The memory image after loading `lines` into `ram`, and whether the
      loader finished: past 256 values the store of the 257th fails with the
      first 256 already in place. */
  function Load(ram: seq<nat>, lines: seq<string>): (r: (bool, seq<nat>))
    requires |ram| == 256 && Loadable(lines)
    ensures |r.1| == 256
    ensures r.0 <==> |Program(lines)| <= 256
    ensures r.0 ==> r.1[..|Program(lines)|] == Program(lines) && r.1[|Program(lines)|..] == ram[|Program(lines)|..]
    ensures !r.0 ==> r.1 == Program(lines)[..256]
  {
    var p := Program(lines);
    if |p| <= 256 then (true, p + ram[|p|..]) else (false, p[..256])
  }

  /** The same source with every comment, every surrounding blank and every
      empty line removed. */
  function Clean(lines: seq<string>): (r: seq<string>)
    ensures |r| <= |lines|
  {
    if lines == [] then []
    else
      var c := Command(lines[|lines| - 1]);
      var init := Clean(lines[..|lines| - 1]);
      if c == [] then init else init + [c]
  }

  lemma LoadableAppend(a: seq<string>, b: seq<string>)
    requires Loadable(a) && Loadable(b)
    ensures Loadable(a + b)
  {
    forall i | 0 <= i < |a + b| ensures LoadableLine((a + b)[i]) {
      if i < |a| { assert (a + b)[i] == a[i]; } else { assert (a + b)[i] == b[i - |a|]; }
    }
  }

  /** Loading two pieces of a source one after the other stores their values one after the other. */
  lemma {:induction false} ProgramAppend(a: seq<string>, b: seq<string>)
    requires Loadable(a) && Loadable(b)
    ensures Loadable(a + b)
    ensures Program(a + b) == Program(a) + Program(b)
    decreases |b|
  {
    LoadableAppend(a, b);
    if b == [] {
      assert a + b == a;
    } else {
      var b' := b[..|b| - 1];
      assert (a + b)[..|a + b| - 1] == a + b';
      assert (a + b)[|a + b| - 1] == b[|b| - 1];
      ProgramAppend(a, b');
    }
  }

  lemma LoadableSlices(lines: seq<string>, n: nat)
    requires Loadable(lines) && n <= |lines|
    ensures Loadable(lines[..n]) && Loadable(lines[n..])
  {
    assert forall i :: 0 <= i < n ==> lines[..n][i] == lines[i];
    assert forall i :: 0 <= i < |lines| - n ==> lines[n..][i] == lines[n + i];
  }

  /** The lines before line `n` store a prefix of what all the lines store. */
  lemma ProgramPrefix(lines: seq<string>, n: nat)
    requires Loadable(lines) && n <= |lines|
    ensures Loadable(lines[..n])
    ensures |Program(lines[..n])| <= |Program(lines)|
    ensures Program(lines)[..|Program(lines[..n])|] == Program(lines[..n])
  {
    LoadableSlices(lines, n);
    ProgramAppend(lines[..n], lines[n..]);
    assert lines[..n] + lines[n..] == lines;
  }

  /** A blank or comment-only line `i` stores nothing. */
  lemma ProgramSkipsBlank(lines: seq<string>, i: nat)
    requires Loadable(lines) && i < |lines| && Command(lines[i]) == []
    ensures Loadable(lines[..i]) && Loadable(lines[..i + 1])
    ensures Program(lines[..i + 1]) == Program(lines[..i])
  {
    LoadableSlices(lines, i);
    LoadableSlices(lines, i + 1);
    assert lines[..i + 1][..i] == lines[..i];
  }

  /** Any other line `i` stores its value right after what the lines before it stored. */
  lemma ProgramStores(lines: seq<string>, i: nat)
    requires Loadable(lines) && i < |lines| && Command(lines[i]) != []
    ensures Loadable(lines[..i]) && Loadable(lines[..i + 1]) && IsBinary(Command(lines[i]))
    ensures Program(lines[..i + 1]) == Program(lines[..i]) + [ParseBinary(Command(lines[i]))]
  {
    LoadableSlices(lines, i);
    LoadableSlices(lines, i + 1);
    assert lines[..i + 1][..i] == lines[..i];
  }

  /** Once 256 values are stored, a further non-blank line means the whole
      source stores more than 256 values, the first 256 of them being those. */
  lemma ProgramOverflow(lines: seq<string>, i: nat)
    requires Loadable(lines) && i < |lines| && Command(lines[i]) != []
    requires Loadable(lines[..i]) && |Program(lines[..i])| == 256
    ensures |Program(lines)| > 256 && Program(lines)[..256] == Program(lines[..i])
  {
    ProgramStores(lines, i);
    ProgramPrefix(lines, i + 1);
    assert Program(lines[..i + 1])[..256] == Program(lines[..i]);
  }

  // ---------------------------------------------------------------------
  // Properties of the line format

  /** A '#' ends the command: whatever follows it is ignored. */
  lemma {:induction false} CommentIgnored(c: string, t: string)
    requires '#' !in c
    ensures BeforeHash(c + "#" + t) == c
    ensures Command(c + "#" + t) == Command(c)
    decreases |c|
  {
    if c == [] {
      assert (c + "#" + t)[0] == '#';
    } else {
      assert (c + "#" + t)[1..] == c[1..] + "#" + t;
      CommentIgnored(c[1..], t);
      assert '#' !in c[1..] by {
        forall k | 0 <= k < |c[1..]| ensures c[1..][k] != '#' {
          assert c[1..][k] == c[k + 1];
        }
      }
      BeforeHashOfPlain(c);
    }
  }

  /** Text without a '#' is all command. */
  lemma {:induction false} BeforeHashOfPlain(s: string)
    requires '#' !in s
    ensures BeforeHash(s) == s
    decreases |s|
  {
    if s != [] {
      assert '#' !in s[1..] by {
        forall k | 0 <= k < |s[1..]| ensures s[1..][k] != '#' {
          assert s[1..][k] == s[k + 1];
        }
      }
      BeforeHashOfPlain(s[1..]);
    }
  }

  /** A command holds no '#' and, unless empty, neither starts nor ends with whitespace. */
  lemma CommandShape(line: string)
    ensures '#' !in Command(line)
    ensures var c := Command(line); c != [] ==> !IsSpace(c[0]) && !IsSpace(c[|c| - 1])
  {
    var b := BeforeHash(line);
    StripShape(b);
    var i, c := |b| - |TrimLeft(b)|, Trim(b);
    assert c == b[i..i + |c|];
    assert '#' !in c by {
      forall k | 0 <= k < |c| ensures c[k] != '#' {
        assert c[k] == b[i + k];
      }
    }
  }

  /** Stripping and cutting at '#' a second time changes nothing. */
  lemma CommandIdempotent(line: string)
    ensures Command(Command(line)) == Command(line)
  {
    var c := Command(line);
    CommandShape(line);
    BeforeHashOfPlain(c);
    assert LeadingSpaces(c) == 0;
    assert TrailingSpaces(c) == 0;
  }

  /** Dropping the last line keeps a source loadable. */
  lemma LoadableLast(lines: seq<string>)
    requires Loadable(lines) && lines != []
    ensures Loadable(lines[..|lines| - 1]) && LoadableLine(lines[|lines| - 1])
  {
    LoadableSlices(lines, |lines| - 1);
  }

  /** Inserting a blank or comment-only line anywhere stores nothing more. */
  lemma BlankLineStoresNothing(a: seq<string>, blank: string, b: seq<string>)
    requires Loadable(a) && Loadable(b) && Command(blank) == []
    ensures Loadable(a + [blank] + b) && Loadable(a + b)
    ensures Program(a + [blank] + b) == Program(a + b)
  {
    assert Loadable([blank]) by { assert IsBinary(Command(blank)); }
    assert Program([blank]) == [] by { assert [blank][..0] == []; }
    ProgramAppend(a, [blank]);
    ProgramAppend(a + [blank], b);
    ProgramAppend(a, b);
  }

  /** The cleaned source loads the same values as the original. */
  lemma {:induction false} CleanLoadsSame(lines: seq<string>)
    requires Loadable(lines)
    ensures Loadable(Clean(lines)) && Program(Clean(lines)) == Program(lines)
    decreases |lines|
  {
    if lines != [] {
      var init := lines[..|lines| - 1];
      var c := Command(lines[|lines| - 1]);
      LoadableLast(lines);
      CleanLoadsSame(init);
      if c != [] {
        CommandIdempotent(lines[|lines| - 1]);
        assert Loadable([c]);
        ProgramAppend(Clean(init), [c]);
        assert [c][..0] == [];
        assert Program([c]) == [ParseBinary(c)];
      }
    }
  }

  /** ... so it gives the same memory image and the same outcome. */
  lemma CleanLoadsSameImage(ram: seq<nat>, lines: seq<string>)
    requires |ram| == 256 && Loadable(lines)
    ensures Loadable(Clean(lines)) && Load(ram, Clean(lines)) == Load(ram, lines)
  {
    CleanLoadsSame(lines);
  }

  /** Every line of the cleaned source is its own command, and non-blank. */
  lemma {:induction false} CleanIsClean(lines: seq<string>)
    ensures forall i :: 0 <= i < |Clean(lines)| ==> Clean(lines)[i] != [] && Command(Clean(lines)[i]) == Clean(lines)[i]
    decreases |lines|
  {
    if lines != [] {
      var init := lines[..|lines| - 1];
      CleanIsClean(init);
      CommandIdempotent(lines[|lines| - 1]);
    }
  }

  // ---------------------------------------------------------------------
  // Binary literals

  /** The `width`-digit base-2 numeral of v, most significant digit first,
      as the program files write their bytes. */
  function Bits(v: nat, width: nat): (s: string)
    ensures |s| == width && IsBinary(s)
  {
    if width == 0 then [] else Bits(v / 2, width - 1) + [if v % 2 == 1 then '1' else '0']
  }

  /** Parsing a numeral wide enough for v gives back v. */
  lemma {:induction false} ParseBits(v: nat, width: nat)
    requires v < Pow2(width)
    ensures ParseBinary(Bits(v, width)) == v
    decreases width
  {
    if width > 0 {
      var s := Bits(v, width);
      assert s[..|s| - 1] == Bits(v / 2, width - 1);
      ParseBits(v / 2, width - 1);
    }
  }

  /** ... and the numeral of a literal's value, as wide as the literal, is the literal. */
  lemma {:induction false} BitsOfParse(s: string)
    requires IsBinary(s)
    ensures Bits(ParseBinary(s), |s|) == s
    decreases |s|
  {
    if s != [] {
      var init := s[..|s| - 1];
      var v := ParseBinary(s);
      assert v / 2 == ParseBinary(init) && (v % 2 == 1 <==> s[|s| - 1] == '1');
      BitsOfParse(init);
      assert s == init + [s[|s| - 1]];
    }
  }

  /** Leading zeros do not change the value. */
  lemma {:induction false} LeadingZero(s: string)
    requires IsBinary(s)
    ensures IsBinary("0" + s) && ParseBinary("0" + s) == ParseBinary(s)
    decreases |s|
  {
    if s != [] {
      var t := "0" + s;
      assert t[..|t| - 1] == "0" + s[..|s| - 1];
      LeadingZero(s[..|s| - 1]);
    }
  }

  predicate AllSpace(s: string)
  {
    forall k :: 0 <= k < |s| ==> IsSpace(s[k])
  }

  /** Empty, or neither starting nor ending with whitespace. */
  predicate Solid(t: string)
  {
    t != [] ==> !IsSpace(t[0]) && !IsSpace(t[|t| - 1])
  }

  /** The blanks strip removes include space, tab, newline and carriage
      return; no blank is a binary digit or '#'. */
  lemma SpaceChars()
    ensures IsSpace(' ') && IsSpace('\t') && IsSpace('\n') && IsSpace('\r')
    ensures forall c :: IsSpace(c) ==> c != '0' && c != '1' && c != '#'
  {
  }

  /** lstrip drops a run of whitespace from the front and keeps a suffix
      that does not start with any. */
  lemma LstripShape(s: string)
    ensures var l := TrimLeft(s);
      && |l| <= |s| && l == s[|s| - |l|..] && AllSpace(s[..|s| - |l|])
      && (l != [] ==> !IsSpace(l[0]))
  {
    var i := LeadingSpaces(s);
    assert |s| - |TrimLeft(s)| == i;
  }

  /** rstrip drops a run of whitespace from the back and keeps a prefix
      that does not end with any. */
  lemma RstripShape(s: string)
    ensures var r := TrimRight(s);
      && |r| <= |s| && r == s[..|r|] && AllSpace(s[|r|..])
      && (r != [] ==> !IsSpace(r[|r| - 1]))
  {
    var n := TrailingSpaces(s);
    var r := TrimRight(s);
    assert |r| == |s| - n;
    assert forall k :: 0 <= k < |s[|r|..]| ==> s[|r|..][k] == s[|r| + k];
  }

  /** strip keeps the middle of s: what it drops on either side is
      whitespace, and what it keeps neither starts nor ends with any. */
  lemma StripShape(s: string)
    ensures var i, t := |s| - |TrimLeft(s)|, Trim(s);
      && i + |t| <= |s| && t == s[i..i + |t|]
      && AllSpace(s[..i]) && AllSpace(s[i + |t|..]) && Solid(t)
  {
    var l := TrimLeft(s);
    var i, t := |s| - |l|, Trim(s);
    LstripShape(s);
    RstripShape(l);
    assert forall k :: 0 <= k < |t| ==> t[k] == l[k] == s[i + k];
    assert t == s[i..i + |t|];
    assert forall k :: 0 <= k < |s[i + |t|..]| ==> s[i + |t|..][k] == l[|t|..][k];
    if t != [] {
      assert l[0] == t[0];
    }
  }

  /** Whitespace before text that does not start with any is all lstrip counts. */
  lemma {:induction false} LeadingOfPadded(u: string, r: string)
    requires AllSpace(u) && (r != [] ==> !IsSpace(r[0]))
    ensures LeadingSpaces(u + r) == |u|
    decreases |u|
  {
    if u != [] {
      assert (u + r)[1..] == u[1..] + r;
      assert (u + r)[0] == u[0];
      LeadingOfPadded(u[1..], r);
    } else {
      assert u + r == r;
    }
  }

  /** Whitespace after text that does not end with any is all rstrip counts. */
  lemma {:induction false} TrailingOfPadded(r: string, w: string)
    requires AllSpace(w) && (r != [] ==> !IsSpace(r[|r| - 1]))
    ensures TrailingSpaces(r + w) == |w|
    decreases |w|
  {
    if w != [] {
      var w' := w[..|w| - 1];
      assert (r + w)[..|r + w| - 1] == r + w';
      assert (r + w)[|r + w| - 1] == w[|w| - 1];
      TrailingOfPadded(r, w');
    } else {
      assert r + w == r;
    }
  }

  /** The converse of StripShape: text padded with whitespace on both sides
      strips back to itself. */
  lemma StripPadded(u: string, t: string, w: string)
    requires AllSpace(u) && AllSpace(w) && Solid(t)
    ensures Trim(u + t + w) == t
  {
    var s := u + t + w;
    if t == [] {
      assert s == (u + w) + [];
      LeadingOfPadded(u + w, []);
      assert TrimLeft(s) == [];
    } else {
      assert s == u + (t + w);
      LeadingOfPadded(u, t + w);
      assert TrimLeft(s) == t + w;
      TrailingOfPadded(t, w);
      assert (t + w)[..|t|] == t;
    }
  }

  /** A padded command, with or without a comment after it, is what the
      line holds. */
  lemma CommandOfPadded(u: string, t: string, w: string, comment: string)
    requires AllSpace(u) && AllSpace(w) && Solid(t) && '#' !in t
    ensures Command(u + t + w) == t && Command(u + t + w + "#" + comment) == t
  {
    var s := u + t + w;
    SpaceChars();
    assert '#' !in s by {
      forall k | 0 <= k < |s| ensures s[k] != '#' {
        if k < |u| { assert s[k] == u[k]; }
        else if k < |u| + |t| { assert s[k] == t[k - |u|]; }
        else { assert s[k] == w[k - |u| - |t|]; }
      }
    }
    BeforeHashOfPlain(s);
    StripPadded(u, t, w);
    CommentIgnored(s, comment);
  }

  /** Solid text is unchanged by strip: StripPadded with no padding. */
  lemma TrimSolid(t: string)
    requires Solid(t)
    ensures Trim(t) == t
  {
    StripPadded("", t, "");
    assert "" + t + "" == t;
  }

  /** ... and one space after it is stripped: StripPadded with one blank after. */
  lemma TrimSolidSpace(t: string)
    requires Solid(t)
    ensures Trim(t + " ") == t
  {
    assert AllSpace(" ");
    StripPadded("", t, " ");
    assert "" + t + " " == t + " ";
  }

  /** Binary digits hold no '#' and neither start nor end with whitespace. */
  lemma BinarySolid(d: string)
    requires IsBinary(d)
    ensures Solid(d) && '#' !in d
  {
    if d != [] {
      assert d[0] == '0' || d[0] == '1';
      assert d[|d| - 1] == '0' || d[|d| - 1] == '1';
    }
    assert '#' !in d by {
      forall k | 0 <= k < |d| ensures d[k] != '#' { assert d[k] == '0' || d[k] == '1'; }
    }
  }

  /** A line of binary digits is its own command, alone or followed by
      " #" and a comment. */
  lemma DigitsLine(d: string, comment: string)
    requires IsBinary(d) && d != []
    ensures Command(d) == d && Command(d + " #" + comment) == d
  {
    BinarySolid(d);
    BeforeHashOfPlain(d);
    TrimSolid(d);
    assert '#' !in d + " ";
    assert d + " #" + comment == (d + " ") + "#" + comment;
    CommentIgnored(d + " ", comment);
    BeforeHashOfPlain(d + " ");
    TrimSolidSpace(d);
  }

  /** A program file with one 8-digit numeral per line, each followed by a comment. */
  function Listing(bytes: seq<nat>, notes: seq<string>): (lines: seq<string>)
    requires |notes| == |bytes|
    ensures |lines| == |bytes|
  {
    if bytes == [] then []
    else Listing(bytes[..|bytes| - 1], notes[..|notes| - 1]) + [Bits(bytes[|bytes| - 1], 8) + " #" + notes[|notes| - 1]]
  }

  /** One numbered line stores its byte. */
  lemma ByteLine(v: nat, note: string)
    requires v < 256
    ensures var c := Command(Bits(v, 8) + " #" + note); c != [] && IsBinary(c) && ParseBinary(c) == v
  {
    DigitsLine(Bits(v, 8), note);
    assert Pow2(8) == 256;
    ParseBits(v, 8);
  }

  /** Appending a line whose command is non-empty stores one more value. */
  lemma ProgramSnoc(lines: seq<string>, line: string)
    requires Loadable(lines) && LoadableLine(line) && Command(line) != []
    ensures Loadable(lines + [line])
    ensures Program(lines + [line]) == Program(lines) + [ParseBinary(Command(line))]
  {
    LoadableAppend(lines, [line]);
    assert (lines + [line])[..|lines|] == lines;
  }

  /** Such a file loads exactly its bytes, in order. */
  lemma {:induction false} ListingLoads(bytes: seq<nat>, notes: seq<string>)
    requires |notes| == |bytes| && forall i :: 0 <= i < |bytes| ==> bytes[i] < 256
    ensures Loadable(Listing(bytes, notes)) && Program(Listing(bytes, notes)) == bytes
    decreases |bytes|
  {
    if bytes != [] {
      var n := |bytes| - 1;
      ListingLoads(bytes[..n], notes[..n]);
      ByteLine(bytes[n], notes[n]);
      ProgramSnoc(Listing(bytes[..n], notes[..n]), Bits(bytes[n], 8) + " #" + notes[n]);
      assert bytes == bytes[..n] + [bytes[n]];
    }
  }
}
