/** Slugs of instructor names: the slugify expression chain and the probe for a free slug. */
module Slug {
  import opened Common

  // ---- slugify --------------------------------------------------------------------------

  /** The letters and digits the pattern [a-z0-9] keeps. */
  predicate Alnum(c: char) {
    'a' <= c <= 'z' || '0' <= c <= '9'
  }

  predicate Hex(c: char) {
    '0' <= c <= '9' || 'a' <= c <= 'f'
  }

  /** The hexadecimal text of a SHA-1 digest. */
  type Digest = s: string | |s| == 40 && forall i :: 0 <= i < |s| ==> Hex(s[i]) witness seq(40, _ => '0')

  /**
   toLowerCase of one character, exact as far as [a-z0-9] is concerned: besides A-Z only the
   Kelvin sign and the dotted capital I yield a letter of that class.
   */
  function LowerChar(c: char): string {
    if 'A' <= c <= 'Z' then [(c as int + 32) as char]
    else if c == '\U{212A}' then "k"
    else if c == '\U{0130}' then "i\U{0307}"
    else [c]
  }

  function Lower(s: string): string {
    if s == "" then "" else LowerChar(s[0]) + Lower(s[1..])
  }

  /** The text after a leading run of characters outside [a-z0-9]. */
  function SkipRun(s: string): (r: string)
    ensures |r| <= |s| && (r != "" ==> Alnum(r[0]))
  {
    if s == "" || Alnum(s[0]) then s else SkipRun(s[1..])
  }

  /** replace(/[^a-z0-9]+/g, '-') */
  function Hyphenate(s: string): string
    decreases |s|
  {
    if s == "" then ""
    else if Alnum(s[0]) then [s[0]] + Hyphenate(s[1..])
    else "-" + Hyphenate(SkipRun(s[1..]))
  }

  function StripLeft(s: string): string {
    if s != "" && s[0] == '-' then StripLeft(s[1..]) else s
  }

  function StripRight(s: string): string {
    if s != "" && s[|s| - 1] == '-' then StripRight(s[..|s| - 1]) else s
  }

  /** The readable part of a slug: lower-cased, hyphenated, without outer hyphens. */
  function Ascii(name: string): string {
    StripRight(StripLeft(Hyphenate(Lower(name))))
  }

  function Slugify(name: string, sha1: string -> Digest): string {
    var ascii := Ascii(name);
    if ascii == "" then "i-" + sha1(name)[..4]
    else if |ascii| > 40 then ascii[..40] else ascii
  }

  // ---- What the readable part is --------------------------------------------------------

  /** Length of the leading run of letters and digits. */
  function RunLength(s: string): (n: nat)
    ensures n <= |s| && (n < |s| ==> !Alnum(s[n]))
    ensures forall i :: 0 <= i < n ==> Alnum(s[i])
  {
    if s == "" || !Alnum(s[0]) then 0 else 1 + RunLength(s[1..])
  }

  /** The maximal runs of letters and digits, in order. */
  function Words(s: string): seq<string>
    decreases |s|
  {
    if s == "" then []
    else if Alnum(s[0]) then [s[..RunLength(s)]] + Words(s[RunLength(s)..])
    else Words(s[1..])
  }

  function Join(ws: seq<string>): string {
    if ws == [] then "" else if |ws| == 1 then ws[0] else ws[0] + "-" + Join(ws[1..])
  }

  /** A word of letters and digits. */
  predicate Word(w: string) {
    w != "" && forall i :: 0 <= i < |w| ==> Alnum(w[i])
  }

  lemma {:induction false} WordsAreWords(s: string)
    ensures forall i :: 0 <= i < |Words(s)| ==> Word(Words(s)[i])
    decreases |s|
  {
    if s != "" {
      if Alnum(s[0]) {
        WordsAreWords(s[RunLength(s)..]);
      } else {
        WordsAreWords(s[1..]);
      }
    }
  }

  lemma {:induction false} HyphenateRun(s: string)
    ensures Hyphenate(s) == s[..RunLength(s)] + Hyphenate(s[RunLength(s)..])
  {
    if s != "" && Alnum(s[0]) {
      HyphenateRun(s[1..]);
      assert s[1..][..RunLength(s[1..])] == s[1..RunLength(s)];
      assert s[1..][RunLength(s[1..])..] == s[RunLength(s)..];
    } else {
      assert s[..0] == "" && s[0..] == s;
    }
  }

  lemma {:induction false} SkipRunKeepsWords(s: string)
    ensures Words(SkipRun(s)) == Words(s)
    ensures |SkipRun(s)| > 0 ==> SkipRun(s)[|SkipRun(s)| - 1] == s[|s| - 1]
    ensures SkipRun(s) == "" <==> Words(s) == []
  {
    if s != "" && !Alnum(s[0]) {
      SkipRunKeepsWords(s[1..]);
    }
  }

  lemma {:induction false} NoWords(s: string, i: nat)
    requires Words(s) == [] && i < |s|
    ensures !Alnum(s[i])
  {
    if i > 0 {
      NoWords(s[1..], i - 1);
    }
  }

  /** Words joined by hyphens, with a hyphen for each end of s that is not a letter or digit. */
  function Ragged(s: string, ws: seq<string>): string
    requires s != ""
  {
    (if Alnum(s[0]) then "" else "-") + Join(ws) + (if Alnum(s[|s| - 1]) then "" else "-")
  }

  lemma RaggedCons(s: string, n: nat, ws: seq<string>)
    requires 0 < n < |s| && Alnum(s[0]) && !Alnum(s[n]) && ws != []
    ensures Ragged(s, [s[..n]] + ws) == s[..n] + Ragged(s[n..], ws)
  {
    var tail := if Alnum(s[|s| - 1]) then "" else "-";
    assert ([s[..n]] + ws)[1..] == ws;
    assert s[n..][|s[n..]| - 1] == s[|s| - 1];
    assert Ragged(s[n..], ws) == "-" + Join(ws) + tail;
    assert "" + Join([s[..n]] + ws) == s[..n] + "-" + Join(ws);
  }

  lemma RaggedLead(s: string, rest: string, ws: seq<string>)
    requires s != "" && rest != "" && !Alnum(s[0]) && Alnum(rest[0]) && rest[|rest| - 1] == s[|s| - 1]
    ensures Ragged(s, ws) == "-" + Ragged(rest, ws)
  {
    var tail := if Alnum(s[|s| - 1]) then "" else "-";
    assert Ragged(rest, ws) == Join(ws) + tail;
  }

  lemma RaggedOne(s: string, n: nat)
    requires 0 < n <= |s| && Alnum(s[0]) && (n == |s| ==> Alnum(s[n - 1])) && (n < |s| ==> !Alnum(s[|s| - 1]))
    ensures Ragged(s, [s[..n]]) == s[..n] + (if n == |s| then "" else "-")
  {
  }

  /** The hyphenated text is the words joined by single hyphens, ragged where the text is. */
  lemma {:induction false} HyphenateIsWords(s: string)
    ensures Words(s) == [] ==> Hyphenate(s) == if s == "" then "" else "-"
    ensures Words(s) != [] ==> s != "" && Hyphenate(s) == Ragged(s, Words(s))
    decreases |s|, 1
  {
    if s == "" {
    } else if Alnum(s[0]) {
      HyphenateIsWordsRun(s);
    } else {
      HyphenateIsWordsGap(s);
    }
  }

  lemma {:induction false} HyphenateIsWordsGap(s: string)
    requires s != "" && !Alnum(s[0])
    ensures Words(s) == [] ==> Hyphenate(s) == "-"
    ensures Words(s) != [] ==> Hyphenate(s) == Ragged(s, Words(s))
    decreases |s|, 0
  {
    var rest := SkipRun(s[1..]);
    SkipRunKeepsWords(s[1..]);
    HyphenateIsWords(rest);
    assert Words(s) == Words(rest) && Hyphenate(s) == "-" + Hyphenate(rest);
    if Words(s) != [] {
      RaggedLead(s, rest, Words(s));
    }
  }

  lemma {:induction false} HyphenateIsWordsRun(s: string)
    requires s != "" && Alnum(s[0])
    ensures Words(s) != [] && Hyphenate(s) == Ragged(s, Words(s))
    decreases |s|, 0
  {
    var n := RunLength(s);
    var rest := s[n..];
    HyphenateRun(s);
    HyphenateIsWords(rest);
    if Words(rest) == [] {
      if rest != "" {
        NoWords(rest, |rest| - 1);
      }
      RaggedOne(s, n);
    } else {
      RaggedCons(s, n, Words(rest));
    }
  }

  lemma {:induction false} JoinEnds(ws: seq<string>)
    requires ws != [] && forall i :: 0 <= i < |ws| ==> Word(ws[i])
    ensures Join(ws) != "" && Alnum(Join(ws)[0]) && Alnum(Join(ws)[|Join(ws)| - 1])
  {
    if |ws| > 1 {
      assert Word(ws[0]);
      JoinEnds(ws[1..]);
      var j := Join(ws);
      assert j[|j| - 1] == Join(ws[1..])[|Join(ws[1..])| - 1];
    }
  }

  lemma StripsLeft(t: string, left: bool)
    requires t != "" && Alnum(t[0])
    ensures StripLeft((if left then "-" else "") + t) == t
  {
    if left {
      assert ("-" + t)[1..] == t;
    } else {
      assert "" + t == t;
    }
  }

  lemma StripsRight(t: string, right: bool)
    requires t != "" && Alnum(t[|t| - 1])
    ensures StripRight(t + (if right then "-" else "")) == t
  {
    if right {
      assert (t + "-")[..|t|] == t;
    } else {
      assert t + "" == t;
    }
  }

  /** Stripping removes exactly the ragged ends around a text that begins and ends with a letter or digit. */
  lemma Strip(h: string, j: string, left: bool, right: bool)
    requires j != "" && Alnum(j[0]) && Alnum(j[|j| - 1])
    requires h == (if left then "-" else "") + j + (if right then "-" else "")
    ensures StripRight(StripLeft(h)) == j
  {
    var t := j + (if right then "-" else "");
    ConcatAssoc(if left then "-" else "", j, if right then "-" else "");
    StripsLeft(t, left);
    StripsRight(j, right);
  }

  /** Stripped of its ragged ends, the hyphenated text is the words joined by hyphens. */
  lemma StripHyphenated(s: string)
    ensures StripRight(StripLeft(Hyphenate(s))) == Join(Words(s))
  {
    HyphenateIsWords(s);
    if Words(s) == [] {
      if s != "" {
        assert "-"[1..] == "";
      }
    } else {
      WordsAreWords(s);
      JoinEnds(Words(s));
      Strip(Hyphenate(s), Join(Words(s)), !Alnum(s[0]), !Alnum(s[|s| - 1]));
    }
  }

  /** The readable part of a slug is the words of the lower-cased name, joined by hyphens. */
  lemma AsciiIsJoinedWords(name: string)
    ensures Ascii(name) == Join(Words(Lower(name)))
  {
    StripHyphenated(Lower(name));
  }

  // ---- The shape of a slug --------------------------------------------------------------

  predicate SlugChars(s: string) {
    forall i :: 0 <= i < |s| ==> 'a' <= s[i] <= 'z' || '0' <= s[i] <= '9' || s[i] == '-'
  }

  predicate NoDoubleHyphen(s: string) {
    forall i :: 0 <= i < |s| - 1 ==> !(s[i] == '-' && s[i + 1] == '-')
  }

  predicate WellShaped(s: string) {
    s != "" && |s| <= 40 && SlugChars(s) && s[0] != '-' && NoDoubleHyphen(s)
  }

  lemma {:induction false} JoinShape(ws: seq<string>)
    requires forall i :: 0 <= i < |ws| ==> Word(ws[i])
    ensures SlugChars(Join(ws)) && NoDoubleHyphen(Join(ws))
  {
    if |ws| == 1 {
      assert Word(ws[0]);
    } else if |ws| > 1 {
      var w, rest := ws[0], Join(ws[1..]);
      assert Word(w);
      JoinShape(ws[1..]);
      JoinEnds(ws[1..]);
      var j := w + "-" + rest;
      forall i | 0 <= i < |j|
        ensures Alnum(j[i]) || j[i] == '-'
        ensures i < |j| - 1 ==> !(j[i] == '-' && j[i + 1] == '-')
      {
        if i > |w| {
          assert j[i] == rest[i - |w| - 1];
        }
      }
    }
  }

  /** Every slug is non-empty, short, over [a-z0-9-], without leading or doubled hyphen. */
  lemma SlugShape(name: string, sha1: string -> Digest)
    ensures WellShaped(Slugify(name, sha1))
  {
    AsciiIsJoinedWords(name);
    WordsAreWords(Lower(name));
    JoinShape(Words(Lower(name)));
    if Words(Lower(name)) != [] {
      JoinEnds(Words(Lower(name)));
    } else {
      var h := sha1(name)[..4];
      var s := "i-" + h;
      forall i | 2 <= i < |s|
        ensures Alnum(s[i])
      {
        assert s[i] == sha1(name)[i - 2] && Hex(sha1(name)[i - 2]);
      }
    }
  }

  // ---- What slugify ignores and what it keeps -------------------------------------------

  /** The same character, or the two cases of one ASCII letter. */
  predicate SameButCase(c: char, d: char) {
    || c == d
    || ('A' <= c <= 'Z' && d as int == c as int + 32)
    || ('A' <= d <= 'Z' && c as int == d as int + 32)
  }

  lemma {:induction false} LowerIgnoresCase(a: string, b: string)
    requires |a| == |b| && forall i :: 0 <= i < |a| ==> SameButCase(a[i], b[i])
    ensures Lower(a) == Lower(b)
  {
    if a != "" {
      assert SameButCase(a[0], b[0]);
      forall i | 0 <= i < |a[1..]|
        ensures SameButCase(a[1..][i], b[1..][i])
      {
        assert SameButCase(a[i + 1], b[i + 1]);
      }
      LowerIgnoresCase(a[1..], b[1..]);
    }
  }

  /** No ASCII letter or digit, and none of the two other characters whose lower case has one. */
  ghost predicate NoLetters(name: string) {
    forall i :: 0 <= i < |name| ==>
      !('a' <= name[i] <= 'z') && !('A' <= name[i] <= 'Z') && !('0' <= name[i] <= '9') &&
      name[i] != '\U{212A}' && name[i] != '\U{0130}'
  }

  lemma NoLettersCons(name: string)
    requires name != ""
    ensures NoLetters(name) <==> NoLetters([name[0]]) && NoLetters(name[1..])
  {
    assert name == [name[0]] + name[1..];
  }

  lemma {:induction false} WordsIffLetters(name: string)
    ensures Words(Lower(name)) == [] <==> NoLetters(name)
  {
    if name != "" {
      var head, tail := LowerChar(name[0]), Lower(name[1..]);
      WordsIffLetters(name[1..]);
      NoLettersCons(name);
      assert Lower(name)[0] == head[0];
      if !Alnum(head[0]) {
        assert Lower(name)[1..] == tail;
      }
    }
  }

  /** A name without letters gets four digits of its hash; any other name its words, cut at 40 characters. */
  lemma SlugOf(name: string, sha1: string -> Digest)
    ensures if NoLetters(name) then Slugify(name, sha1) == "i-" + sha1(name)[..4]
            else
              var joined := Join(Words(Lower(name)));
              joined != "" && Slugify(name, sha1) == if |joined| > 40 then joined[..40] else joined
  {
    AsciiIsJoinedWords(name);
    WordsIffLetters(name);
    if Words(Lower(name)) != [] {
      WordsAreWords(Lower(name));
      JoinEnds(Words(Lower(name)));
    }
  }

  /** Names that differ in the case of ASCII letters only have one slug. */
  lemma SlugIgnoresCase(a: string, b: string, sha1: string -> Digest)
    requires |a| == |b| && forall i :: 0 <= i < |a| ==> SameButCase(a[i], b[i])
    ensures Slugify(a, sha1) == Slugify(b, sha1)
  {
    LowerIgnoresCase(a, b);
    WordsIffLetters(a);
    WordsIffLetters(b);
    AsciiIsJoinedWords(a);
    if NoLetters(a) {
      assert forall i :: 0 <= i < |a| ==> SameButCase(a[i], b[i]) ==> a[i] == b[i];
      assert a == b;
    } else {
      WordsAreWords(Lower(a));
      JoinEnds(Words(Lower(a)));
    }
  }

  // ---- slugify on slugs -----------------------------------------------------------------

  lemma {:induction false} LowerOfSlug(s: string)
    requires SlugChars(s)
    ensures Lower(s) == s
  {
    if s != "" {
      assert Alnum(s[0]) || s[0] == '-';
      LowerOfSlug(s[1..]);
    }
  }

  lemma {:induction false} HyphenateOfSlug(s: string)
    requires SlugChars(s) && NoDoubleHyphen(s)
    ensures Hyphenate(s) == s
    decreases |s|
  {
    if s != "" {
      var t := s[1..];
      assert forall i :: 0 <= i < |t| ==> t[i] == s[i + 1];
      if !Alnum(s[0]) {
        assert s[0] == '-';
        if t != "" {
          assert s[1] != '-';
          assert Alnum(t[0]);
        }
        assert SkipRun(t) == t;
      }
      HyphenateOfSlug(t);
    }
  }

  /** slugify of a slug only removes the hyphen that truncation may have left at its end. */
  lemma SlugifySlug(s: string, sha1: string -> Digest)
    requires WellShaped(s)
    ensures Slugify(s, sha1) == if s[|s| - 1] == '-' then s[..|s| - 1] else s
  {
    LowerOfSlug(s);
    HyphenateOfSlug(s);
    assert StripLeft(s) == s;
    if s[|s| - 1] == '-' {
      var t := s[..|s| - 1];
      assert s[|s| - 2] != '-';
      assert StripRight(t) == t;
    }
  }

  /** A slug ends on a hyphen exactly when truncation cut right behind one. */
  lemma SlugEndsOnHyphen(name: string, sha1: string -> Digest)
    ensures var s := Slugify(name, sha1);
            s != "" && (s[|s| - 1] == '-' <==> |Ascii(name)| > 40 && Ascii(name)[39] == '-')
  {
    var s := Slugify(name, sha1);
    AsciiIsJoinedWords(name);
    if Words(Lower(name)) != [] {
      WordsAreWords(Lower(name));
      JoinEnds(Words(Lower(name)));
    } else {
      assert s[|s| - 1] == sha1(name)[3] && Hex(sha1(name)[3]);
    }
  }

  /** slugify of a slug is a slug that does not end on a hyphen. */
  lemma SlugSettles(s: string, sha1: string -> Digest)
    requires WellShaped(s)
    ensures Slugify(s, sha1) != "" && Slugify(s, sha1)[|Slugify(s, sha1)| - 1] != '-'
  {
    SlugifySlug(s, sha1);
    if s[|s| - 1] == '-' {
      assert s[|s| - 2] != '-';
    }
  }

  /** A second slugify is stable, and changes the first only when truncation ended on a hyphen. */
  lemma SlugifyTwice(name: string, sha1: string -> Digest)
    ensures var s := Slugify(name, sha1);
            && Slugify(Slugify(s, sha1), sha1) == Slugify(s, sha1)
            && (Slugify(s, sha1) == s <==> !(|Ascii(name)| > 40 && Ascii(name)[39] == '-'))
  {
    var s := Slugify(name, sha1);
    SlugShape(name, sha1);
    SlugEndsOnHyphen(name, sha1);
    SlugifySlug(s, sha1);
    SlugSettles(s, sha1);
    SlugShape(s, sha1);
    SlugifySlug(Slugify(s, sha1), sha1);
  }

  // ---- Free slugs -----------------------------------------------------------------------

  const TRIES := 100

  /** base, base-1, base-2, ... */
  function Candidate(base: string, k: nat): string {
    if k == 0 then base else base + "-" + Decimal(k)
  }

  lemma CandidatesDiffer(base: string, i: nat, k: nat)
    requires Candidate(base, i) == Candidate(base, k)
    ensures i == k
  {
    if i != 0 && k != 0 {
      assert Candidate(base, i)[|base| + 1..] == Decimal(i);
      assert Candidate(base, k)[|base| + 1..] == Decimal(k);
      DecimalInjective(i, k);
    }
  }

  /** The least suffix from k on whose candidate is free, or TRIES. */
  function FirstFree(taken: set<string>, base: string, k: nat): (j: nat)
    requires k <= TRIES
    ensures k <= j <= TRIES
    decreases TRIES - k
  {
    if k == TRIES || Candidate(base, k) !in taken then k else FirstFree(taken, base, k + 1)
  }

  lemma {:induction false} FirstFreeIsLeast(taken: set<string>, base: string, k: nat)
    requires k <= TRIES
    ensures forall i :: k <= i < FirstFree(taken, base, k) ==> Candidate(base, i) in taken
    ensures FirstFree(taken, base, k) < TRIES ==> Candidate(base, FirstFree(taken, base, k)) !in taken
    decreases TRIES - k
  {
    if k < TRIES && Candidate(base, k) in taken {
      FirstFreeIsLeast(taken, base, k + 1);
    }
  }

  /** The suffixes below TRIES whose candidates are taken. */
  function TakenSuffixes(taken: set<string>, base: string): set<nat> {
    set k | 0 <= k < TRIES && Candidate(base, k) in taken
  }

  lemma {:induction false} CountBelow(s: set<nat>, n: nat)
    requires forall k :: k in s ==> k < n
    ensures |s| <= n
    ensures |s| == n ==> forall k :: 0 <= k < n ==> k in s
  {
    if n > 0 {
      CountBelow(s - {n - 1}, n - 1);
      if n - 1 in s {
        assert s == (s - {n - 1}) + {n - 1};
      } else {
        assert s - {n - 1} == s;
      }
    }
  }

  /** The probe finds a free slug exactly when not all TRIES candidates are taken. */
  lemma ProbeSucceedsIff(taken: set<string>, base: string)
    ensures FirstFree(taken, base, 0) < TRIES <==> |TakenSuffixes(taken, base)| < TRIES
  {
    FirstFreeIsLeast(taken, base, 0);
    CountBelow(TakenSuffixes(taken, base), TRIES);
    if FirstFree(taken, base, 0) == TRIES {
      AllBelow(TakenSuffixes(taken, base), TRIES);
    } else {
      assert FirstFree(taken, base, 0) !in TakenSuffixes(taken, base);
    }
  }

  lemma {:induction false} AllBelow(s: set<nat>, n: nat)
    requires forall k :: 0 <= k < n ==> k in s
    ensures |s| >= n
  {
    if n > 0 {
      AllBelow(s - {n - 1}, n - 1);
      assert s == (s - {n - 1}) + {n - 1};
    }
  }

  lemma {:induction false} TakenInjects(taken: set<string>, base: string, s: set<nat>)
    requires forall k :: k in s ==> Candidate(base, k) in taken
    ensures |s| <= |taken|
    decreases |s|
  {
    if k :| k in s {
      var c := Candidate(base, k);
      forall i | i in s - {k}
        ensures Candidate(base, i) in taken - {c}
      {
        if Candidate(base, i) == c {
          CandidatesDiffer(base, i, k);
        }
      }
      TakenInjects(taken - {c}, base, s - {k});
      assert s == (s - {k}) + {k};
      assert taken == (taken - {c}) + {c};
    }
  }

  /** Fewer than TRIES slugs in the table always leave a free candidate. */
  lemma SmallTableSuffices(taken: set<string>, base: string)
    requires |taken| < TRIES
    ensures FirstFree(taken, base, 0) < TRIES
    ensures Candidate(base, FirstFree(taken, base, 0)) !in taken
    ensures forall i :: 0 <= i < FirstFree(taken, base, 0) ==> Candidate(base, i) in taken
  {
    TakenInjects(taken, base, TakenSuffixes(taken, base));
    ProbeSucceedsIff(taken, base);
    FirstFreeIsLeast(taken, base, 0);
  }

  /** What ensureUniqueSlug returns: the first free candidate, or the base with a time-hashed tail. */
  function UniqueSlug(taken: set<string>, base: string, stamp: Digest): string {
    var k := FirstFree(taken, base, 0);
    if k < TRIES then Candidate(base, k) else base + "-" + stamp[..6]
  }

  /** The slug is the first of base, base-1, ..., base-99 that is free, and only when none is, the time-hashed one. */
  lemma UniqueSlugExactly(taken: set<string>, base: string, stamp: Digest) returns (k: nat)
    ensures k <= 100 && forall i :: 0 <= i < k ==> Candidate(base, i) in taken
    ensures if k < 100 then UniqueSlug(taken, base, stamp) == Candidate(base, k) && Candidate(base, k) !in taken
            else UniqueSlug(taken, base, stamp) == base + "-" + stamp[..6]
  {
    k := FirstFree(taken, base, 0);
    FirstFreeIsLeast(taken, base, 0);
  }

  /** The first candidate is the base itself, the k-th the base, a hyphen and a text that reads as k. */
  lemma CandidateReads(base: string, k: nat)
    ensures k == 0 ==> Candidate(base, k) == base
    ensures k > 0 ==> |Candidate(base, k)| > |base| + 1 && Candidate(base, k)[..|base| + 1] == base + ['-']
                      && Candidate(base, k)[|base| + 1] != '0' && Read(Candidate(base, k)[|base| + 1..]) == k
  {
    if k > 0 {
      assert Candidate(base, k)[..|base| + 1] == base + "-";
      assert Candidate(base, k)[|base| + 1..] == Decimal(k);
      DecimalReads(k);
    }
  }
}
