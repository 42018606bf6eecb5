/** Deriving a status page's slug from its name, and the language slugs must belong to. */
module Slug {
  import opened Basics

  predicate SlugChar(c: char) {
    'a' <= c <= 'z' || '0' <= c <= '9'
  }

  predicate Separator(c: char) {
    c == '-' || c == ' ' || c == '_'
  }

  // ---- The language ---------------------------------------------------------------

  predicate Word(w: string) {
    w != [] && forall i :: 0 <= i < |w| ==> SlugChar(w[i])
  }

  predicate AllWords(ws: seq<string>) {
    forall w :: w in ws ==> Word(w)
  }

  function JoinDash(ws: seq<string>): string {
    if ws == [] then ""
    else if |ws| == 1 then ws[0]
    else JoinDash(ws[..|ws| - 1]) + "-" + ws[|ws| - 1]
  }

  /** The pattern `^[a-z0-9]+(?:-[a-z0-9]+)*$`: one or more words with single dashes between. */
  ghost predicate InLanguage(s: string) {
    exists ws :: ws != [] && AllWords(ws) && s == JoinDash(ws)
  }

  /** The same language read off the characters. */
  predicate WellFormed(s: string) {
    && s != []
    && (forall i :: 0 <= i < |s| ==> SlugChar(s[i]) || s[i] == '-')
    && s[0] != '-' && s[|s| - 1] != '-'
    && (forall i :: 0 < i < |s| ==> s[i - 1] != '-' || s[i] != '-')
  }

  lemma {:induction false} JoinedIsWellFormed(ws: seq<string>)
    requires ws != [] && AllWords(ws)
    ensures WellFormed(JoinDash(ws))
  {
    var last := ws[|ws| - 1];
    assert Word(last);
    if |ws| > 1 {
      JoinedIsWellFormed(ws[..|ws| - 1]);
    }
  }

  /** Every well-formed text is a join of words: peel the last character. */
  lemma {:induction false} WellFormedIsJoined(s: string) returns (ws: seq<string>)
    requires WellFormed(s)
    ensures ws != [] && AllWords(ws) && s == JoinDash(ws)
  {
    var before, last := s[..|s| - 1], s[|s| - 1];
    if before == [] {
      ws := [s];
    } else if before[|before| - 1] == '-' {
      var earlier := WellFormedIsJoined(before[..|before| - 1]);
      ws := earlier + [[last]];
      assert ws[..|ws| - 1] == earlier;
      assert s == before[..|before| - 1] + "-" + [last];
    } else {
      var earlier := WellFormedIsJoined(before);
      var n := |earlier| - 1;
      ws := earlier[..n] + [earlier[n] + [last]];
      assert ws[..n] == earlier[..n];
      assert earlier[n] in earlier;
      assert s == before + [last];
    }
  }

  lemma LanguageIsWellFormed(s: string)
    ensures InLanguage(s) <==> WellFormed(s)
  {
    if InLanguage(s) {
      var ws :| ws != [] && AllWords(ws) && s == JoinDash(ws);
      JoinedIsWellFormed(ws);
    }
    if WellFormed(s) {
      var ws := WellFormedIsJoined(s);
    }
  }

  datatype Check = Fine | InvalidSlug

  method ValidateSlug(slug: string) returns (r: Check)
    ensures r == Fine <==> InLanguage(slug)
    ensures r == Fine <==>
              && slug != "" && slug[0] != '-' && slug[|slug| - 1] != '-'
              && (forall i :: 0 <= i < |slug| ==> 'a' <= slug[i] <= 'z' || '0' <= slug[i] <= '9' || slug[i] == '-')
              && (forall i :: 0 < i < |slug| ==> !(slug[i - 1] == '-' && slug[i] == '-'))
  {
    LanguageIsWellFormed(slug);
    if slug == "" {
      return InvalidSlug;
    }
    if !WellFormed(slug) {
      return InvalidSlug;
    }
    return Fine;
  }

  // ---- The words of a name --------------------------------------------------------

  /** A text cut into words at its separators: the closed words and the one still open. */
  datatype Pieces = Pieces(closed: seq<string>, open: string) {
    function Words(): seq<string> {
      if open == "" then closed else closed + [open]
    }

    function Add(c: char): Pieces {
      if SlugChar(c) then Pieces(closed, open + [c])
      else if Separator(c) then Pieces(Words(), "")
      else this
    }
  }

  /** Separators close words, slug characters make them up, and all else is skipped. */
  function Cut(s: string): Pieces {
    if s == [] then Pieces([], "") else Cut(s[..|s| - 1]).Add(s[|s| - 1])
  }

  lemma CutOneMore(s: string, c: char)
    ensures Cut(s + [c]) == Cut(s).Add(c)
  {
  }

  lemma JoinOneMore(ws: seq<string>, x: string)
    ensures JoinDash(ws + [x]) == if ws == [] then x else JoinDash(ws) + "-" + x
  {
  }

  lemma {:induction false} WordsAreWords(s: string)
    ensures AllWords(Cut(s).closed) && AllWords(Cut(s).Words())
  {
    if s != [] {
      WordsAreWords(s[..|s| - 1]);
      var before := Cut(s[..|s| - 1]);
      assert before.open != "" ==> before.open in before.Words();
    }
  }

  // ---- Trimming -------------------------------------------------------------------

  function TrimLeft(drop: char -> bool, s: string): string {
    if s != [] && drop(s[0]) then TrimLeft(drop, s[1..]) else s
  }

  function TrimRight(drop: char -> bool, s: string): string {
    if s != [] && drop(s[|s| - 1]) then TrimRight(drop, s[..|s| - 1]) else s
  }

  function Trim(drop: char -> bool, s: string): string {
    TrimRight(drop, TrimLeft(drop, s))
  }

  const IS_DASH: char -> bool := c => c == '-'

  /** What the Unicode tables say about the characters that matter here: slug characters and
      dashes are lower-case already and not white space; white space stays as it is and never
      becomes a slug character. */
  ghost predicate Tables(lower: char -> char, space: char -> bool) {
    && (forall c :: SlugChar(c) || c == '-' ==> lower(c) == c && !space(c))
    && (forall c :: space(c) ==> !SlugChar(lower(c)))
  }

  /** A character that is no slug character leaves no trace at the front. */
  lemma {:induction false} FrontAddsNothing(c: char, s: string)
    requires !SlugChar(c)
    ensures Cut([c] + s) == Cut(s)
  {
    if s == [] {
      CutOneMore("", c);
      assert [c] + s == s + [c];
    } else {
      var before, last := s[..|s| - 1], s[|s| - 1];
      FrontAddsNothing(c, before);
      CutOneMore([c] + before, last);
      assert [c] + s == [c] + before + [last];
    }
  }

  lemma {:induction false} TrimLeftKeepsWords(lower: char -> char, space: char -> bool, s: string)
    requires Tables(lower, space)
    ensures Cut(Lower(lower, TrimLeft(space, s))) == Cut(Lower(lower, s))
  {
    if s != [] && space(s[0]) {
      TrimLeftKeepsWords(lower, space, s[1..]);
      assert Lower(lower, s) == [lower(s[0])] + Lower(lower, s[1..]);
      FrontAddsNothing(lower(s[0]), Lower(lower, s[1..]));
    }
  }

  lemma {:induction false} TrimRightKeepsWords(lower: char -> char, space: char -> bool, s: string)
    requires Tables(lower, space)
    ensures Cut(Lower(lower, TrimRight(space, s))).Words() == Cut(Lower(lower, s)).Words()
  {
    if s != [] && space(s[|s| - 1]) {
      var before, last := s[..|s| - 1], s[|s| - 1];
      TrimRightKeepsWords(lower, space, before);
      assert Lower(lower, s) == Lower(lower, before) + [lower(last)];
      CutOneMore(Lower(lower, before), lower(last));
    }
  }

  // ---- Generation -----------------------------------------------------------------

  /** The loop's progress: the words so far, and a dash once the last one is closed. */
  ghost predicate Progress(p: Pieces, b: string, prevDash: bool) {
    && AllWords(p.Words())
    && b == JoinDash(p.Words()) + (if prevDash then "-" else "")
    && (prevDash <==> p.open == "" && p.closed != [])
  }

  lemma ProgressOnSlugChar(p: Pieces, c: char, b: string, prevDash: bool)
    requires Progress(p, b, prevDash) && SlugChar(c) && AllWords(p.Add(c).Words())
    ensures Progress(p.Add(c), b + [c], false)
  {
  }

  lemma ProgressOnSeparator(p: Pieces, c: char, b: string, prevDash: bool)
    requires Progress(p, b, prevDash) && Separator(c)
    ensures if !prevDash && b != [] then Progress(p.Add(c), b + "-", true) else Progress(p.Add(c), b, prevDash)
  {
  }

  lemma TrimDashes(ws: seq<string>, tail: string)
    requires AllWords(ws) && (tail == "" || (tail == "-" && ws != []))
    ensures Trim(IS_DASH, JoinDash(ws) + tail) == JoinDash(ws)
  {
    if ws != [] {
      JoinedIsWellFormed(ws);
      var joined := JoinDash(ws);
      assert TrimRight(IS_DASH, joined) == joined;
      assert tail == "-" ==> (joined + tail)[..|joined|] == joined;
      assert tail == "" ==> joined + tail == joined;
      assert TrimLeft(IS_DASH, joined + tail) == joined + tail;
    }
  }

  /** The slug of a name: its lower-cased words with single dashes between them. */
  function SlugOf(lower: char -> char, name: string): string {
    JoinDash(Cut(Lower(lower, name)).Words())
  }

  /** One turn of the loop on the character c. */
  lemma ProgressTurn(s: string, c: char, b: string, prevDash: bool)
    requires Progress(Cut(s), b, prevDash)
    ensures SlugChar(c) ==> Progress(Cut(s + [c]), b + [c], false)
    ensures Separator(c) ==> if !prevDash && b != [] then Progress(Cut(s + [c]), b + "-", true)
                             else Progress(Cut(s + [c]), b, prevDash)
    ensures !SlugChar(c) && !Separator(c) ==> Progress(Cut(s + [c]), b, prevDash)
  {
    CutOneMore(s, c);
    if SlugChar(c) {
      WordsAreWords(s + [c]);
      ProgressOnSlugChar(Cut(s), c, b, prevDash);
    } else if Separator(c) {
      ProgressOnSeparator(Cut(s), c, b, prevDash);
    }
  }

  lemma ProgressEnds(p: Pieces, b: string, prevDash: bool)
    requires Progress(p, b, prevDash)
    ensures Trim(IS_DASH, b) == JoinDash(p.Words())
  {
    TrimDashes(p.Words(), if prevDash then "-" else "");
  }

  lemma TrimKeepsWords(lower: char -> char, space: char -> bool, name: string)
    requires Tables(lower, space)
    ensures SlugOf(lower, Trim(space, name)) == SlugOf(lower, name)
  {
    TrimLeftKeepsWords(lower, space, name);
    TrimRightKeepsWords(lower, space, TrimLeft(space, name));
  }

  /** The loop over the characters of a trimmed, lower-cased name. */
  method Build(s: string) returns (b: string)
    ensures Trim(IS_DASH, b) == JoinDash(Cut(s).Words())
  {
    b := "";
    var prevDash := false;
    for i := 0 to |s|
      invariant Progress(Cut(s[..i]), b, prevDash)
    {
      var r := s[i];
      ProgressTurn(s[..i], r, b, prevDash);
      assert s[..i + 1] == s[..i] + [r];
      if SlugChar(r) {
        b := b + [r];
        prevDash := false;
      } else if Separator(r) {
        if !prevDash && |b| > 0 {
          b := b + "-";
          prevDash := true;
        }
      }
    }
    assert s[..|s|] == s;
    ProgressEnds(Cut(s), b, prevDash);
  }

  method GenerateSlugFromName(lower: char -> char, space: char -> bool, name: string) returns (slug: string)
    requires Tables(lower, space)
    ensures slug == SlugOf(lower, name)
  {
    var s := Lower(lower, Trim(space, name));
    var b := Build(s);
    slug := Trim(IS_DASH, b);
    TrimKeepsWords(lower, space, name);
  }

  // ---- What the slug is made of ---------------------------------------------------

  /** Two slugs with a hyphen between them, or the one that is not empty. */
  function Hyphenated(x: string, y: string): string {
    if x == "" then y else if y == "" then x else x + "-" + y
  }

  lemma {:induction false} CutAtSeparator(s: string, c: char, t: string)
    requires c in {'-', ' ', '_'}
    ensures Cut(s + [c] + t) == Pieces(Cut(s).Words() + Cut(t).closed, Cut(t).open)
    decreases |t|
  {
    if t == [] {
      CutOneMore(s, c);
      assert s + [c] + t == s + [c] && Cut(s).Words() + [] == Cut(s).Words();
    } else {
      var before, last := t[..|t| - 1], t[|t| - 1];
      CutAtSeparator(s, c, before);
      CutOneMore(s + [c] + before, last);
      assert s + [c] + t == s + [c] + before + [last];
      var ws := Cut(s).Words();
      assert ws + Cut(before).closed + [Cut(before).open] == ws + (Cut(before).closed + [Cut(before).open]);
    }
  }

  lemma {:induction false} CutSkips(s: string, c: char, t: string)
    requires c !in {'-', ' ', '_'} && !('a' <= c <= 'z') && !('0' <= c <= '9')
    ensures Cut(s + [c] + t) == Cut(s + t)
    decreases |t|
  {
    if t == [] {
      CutOneMore(s, c);
      assert s + [c] + t == s + [c] && s + t == s;
    } else {
      var before, last := t[..|t| - 1], t[|t| - 1];
      CutSkips(s, c, before);
      CutOneMore(s + [c] + before, last);
      CutOneMore(s + before, last);
      assert s + [c] + t == s + [c] + before + [last] && s + t == s + before + [last];
    }
  }

  lemma JoinedNotEmpty(ws: seq<string>)
    requires AllWords(ws)
    ensures JoinDash(ws) == "" <==> ws == []
  {
    if ws != [] {
      JoinedIsWellFormed(ws);
    }
  }

  lemma HyphenatedOneMore(x: string, y: string, w: string)
    requires w != ""
    ensures Hyphenated(Hyphenated(x, y), w) == Hyphenated(x, Hyphenated(y, w))
  {
    assert x + "-" + y + "-" + w == x + "-" + (y + "-" + w);
  }

  lemma JoinHyphenated(ws: seq<string>, w: string)
    requires AllWords(ws) && Word(w)
    ensures JoinDash(ws + [w]) == Hyphenated(JoinDash(ws), w)
  {
    JoinOneMore(ws, w);
    JoinedNotEmpty(ws);
  }

  lemma {:induction false} JoinOfBoth(ws: seq<string>, vs: seq<string>)
    requires AllWords(ws) && AllWords(vs)
    ensures JoinDash(ws + vs) == Hyphenated(JoinDash(ws), JoinDash(vs))
    decreases |vs|
  {
    if vs == [] {
      assert ws + vs == ws;
    } else {
      var before, last := vs[..|vs| - 1], vs[|vs| - 1];
      assert ws + vs == ws + before + [last] && vs == before + [last];
      JoinOfBoth(ws, before);
      JoinHyphenated(ws + before, last);
      JoinHyphenated(before, last);
      HyphenatedOneMore(JoinDash(ws), JoinDash(before), last);
    }
  }

  lemma WordsAtSeparator(s: string, c: char, t: string)
    requires c in {'-', ' ', '_'}
    ensures Cut(s + [c] + t).Words() == Cut(s).Words() + Cut(t).Words()
  {
    CutAtSeparator(s, c, t);
    var ws, q := Cut(s).Words(), Cut(t);
    assert ws + q.closed + [q.open] == ws + (q.closed + [q.open]);
  }

  /** A hyphen, a blank or an underscore anywhere in a name separates the slugs of what is before
      and behind it by one hyphen. */
  lemma SlugSplitsAtSeparator(lower: char -> char, u: string, c: char, v: string)
    requires lower(c) in {'-', ' ', '_'}
    ensures SlugOf(lower, u + [c] + v) == Hyphenated(SlugOf(lower, u), SlugOf(lower, v))
  {
    var s, t := Lower(lower, u), Lower(lower, v);
    assert Lower(lower, u + [c] + v) == s + [lower(c)] + t;
    WordsAtSeparator(s, lower(c), t);
    WordsAreWords(s);
    WordsAreWords(t);
    JoinOfBoth(Cut(s).Words(), Cut(t).Words());
  }

  /** Any other character that is no letter or digit of the alphabet leaves no trace. */
  lemma SlugIgnoresTheRest(lower: char -> char, u: string, c: char, v: string)
    requires lower(c) !in {'-', ' ', '_'} && !('a' <= lower(c) <= 'z') && !('0' <= lower(c) <= '9')
    ensures SlugOf(lower, u + [c] + v) == SlugOf(lower, u + v)
  {
    assert Lower(lower, u + [c] + v) == Lower(lower, u) + [lower(c)] + Lower(lower, v);
    assert Lower(lower, u + v) == Lower(lower, u) + Lower(lower, v);
    CutSkips(Lower(lower, u), lower(c), Lower(lower, v));
  }

  /** Letters and digits stay, in lower case and in order. */
  lemma SlugKeepsLetters(lower: char -> char, w: string)
    requires forall i :: 0 <= i < |w| ==> 'a' <= lower(w[i]) <= 'z' || '0' <= lower(w[i]) <= '9'
    ensures |SlugOf(lower, w)| == |w| && forall i :: 0 <= i < |w| ==> SlugOf(lower, w)[i] == lower(w[i])
  {
    var s := Lower(lower, w);
    CutAppendsWord("", s);
    assert "" + s == s;
    assert Cut(s) == Pieces([], s);
    assert JoinDash(Cut(s).Words()) == s;
  }

  // ---- What the slug promises -----------------------------------------------------

  /** Every generated slug is empty or accepted; it is empty exactly when the name has no slug
      character at all. */
  lemma GeneratedIsEmptyOrAccepted(lower: char -> char, name: string)
    ensures SlugOf(lower, name) == "" || InLanguage(SlugOf(lower, name))
    ensures SlugOf(lower, name) == "" <==> forall c :: c in name ==> !SlugChar(lower(c))
  {
    var s := Lower(lower, name);
    WordsAreWords(s);
    if Cut(s).Words() != [] {
      JoinedIsWellFormed(Cut(s).Words());
    }
    WordsIffSlugChar(s);
    assert forall i :: 0 <= i < |name| ==> s[i] == lower(name[i]) && name[i] in name && s[i] in s;
  }

  lemma {:induction false} WordsIffSlugChar(s: string)
    ensures Cut(s).Words() == [] <==> forall c :: c in s ==> !SlugChar(c)
  {
    if s != [] {
      WordsIffSlugChar(s[..|s| - 1]);
      assert s == s[..|s| - 1] + [s[|s| - 1]];
    }
  }

  lemma {:induction false} CutAppendsWord(s: string, w: string)
    requires forall i :: 0 <= i < |w| ==> SlugChar(w[i])
    ensures Cut(s + w) == Pieces(Cut(s).closed, Cut(s).open + w)
    decreases |w|
  {
    if w == [] {
      assert s + w == s && Cut(s).open + w == Cut(s).open;
    } else {
      var c, rest := w[0], w[1..];
      CutOneMore(s, c);
      CutAppendsWord(s + [c], rest);
      assert s + w == s + [c] + rest;
      assert Cut(s).open + w == Cut(s).open + [c] + rest;
    }
  }

  lemma CutDashWord(s: string, x: string)
    requires Word(x) && Cut(s).open != ""
    ensures Cut(s + "-" + x) == Pieces(Cut(s).closed + [Cut(s).open], x)
  {
    var p := Cut(s);
    CutOneMore(s, '-');
    assert s + "-" == s + ['-'];
    assert Cut(s + "-") == Pieces(p.closed + [p.open], "");
    CutAppendsWord(s + "-", x);
    assert "" + x == x;
  }

  /** A joined text cuts into all words but the last, which stays open. */
  lemma {:induction false} CutOfJoinedPlus(ws: seq<string>, x: string)
    requires AllWords(ws) && Word(x)
    ensures Cut(JoinDash(ws + [x])) == Pieces(ws, x)
  {
    JoinOneMore(ws, x);
    if ws == [] {
      CutAppendsWord("", x);
      assert "" + x == x;
    } else {
      var earlier, last := ws[..|ws| - 1], ws[|ws| - 1];
      assert ws == earlier + [last];
      CutOfJoinedPlus(earlier, last);
      CutDashWord(JoinDash(ws), x);
    }
  }

  /** Cutting undoes joining. */
  lemma CutOfJoin(ws: seq<string>)
    requires ws != [] && AllWords(ws)
    ensures Cut(JoinDash(ws)).Words() == ws
  {
    var earlier, last := ws[..|ws| - 1], ws[|ws| - 1];
    assert ws == earlier + [last];
    CutOfJoinedPlus(earlier, last);
  }

  /** Generation leaves every accepted slug alone; hence generating twice is generating once. */
  lemma AcceptedIsFixed(lower: char -> char, space: char -> bool, s: string)
    requires Tables(lower, space)
    ensures InLanguage(s) ==> SlugOf(lower, s) == s
    ensures SlugOf(lower, SlugOf(lower, s)) == SlugOf(lower, s)
  {
    if InLanguage(s) {
      JoinedIsFixed(lower, space, s);
    }
    GeneratedIsEmptyOrAccepted(lower, s);
    if SlugOf(lower, s) != "" {
      JoinedIsFixed(lower, space, SlugOf(lower, s));
    }
  }

  lemma JoinedIsFixed(lower: char -> char, space: char -> bool, s: string)
    requires Tables(lower, space) && InLanguage(s)
    ensures SlugOf(lower, s) == s
  {
    var ws :| ws != [] && AllWords(ws) && s == JoinDash(ws);
    JoinedIsWellFormed(ws);
    assert Lower(lower, s) == s;
    CutOfJoin(ws);
  }
}
