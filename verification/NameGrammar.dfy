// internal/namespace/validate.go: the repository name grammar, as the regular expression
// the code compiles and as a recogniser that reads the name once.
module NameGrammar {
  import opened Basics

  predicate Alnum(c: char) { 'a' <= c <= 'z' || '0' <= c <= '9' }

  // ---- The regular expression ----

  datatype Re =
    | Lit(text: string)
    | AnyAlnum
    | Cat(a: Re, b: Re)
    | Alt(a: Re, b: Re)
    | Star(r: Re)

  // The text is in the language of the expression.
  ghost predicate InLanguage(r: Re, s: string)
    decreases |s|, r
  {
    match r
    case Lit(t) => s == t
    case AnyAlnum => |s| == 1 && Alnum(s[0])
    case Cat(a, b) => exists i :: 0 <= i <= |s| && InLanguage(a, s[..i]) && InLanguage(b, s[i..])
    case Alt(a, b) => InLanguage(a, s) || InLanguage(b, s)
    case Star(r) => s == "" || exists i :: 0 < i <= |s| && InLanguage(r, s[..i]) && InLanguage(Star(r), s[i..])
  }

  function Plus(r: Re): Re { Cat(r, Star(r)) }

  // [a-z0-9]+((\.|_|__|-+)[a-z0-9]+)*
  function Separator(): Re { Alt(Lit("."), Alt(Lit("_"), Alt(Lit("__"), Plus(Lit("-"))))) }
  function Group(): Re { Cat(Separator(), Plus(AnyAlnum)) }
  function Component(): Re { Cat(Plus(AnyAlnum), Star(Group())) }

  // component(\/component)*
  function Tail(): Re { Cat(Lit("/"), Component()) }
  function NamePattern(): Re { Cat(Component(), Star(Tail())) }

  // ---- The recogniser ----

  // After nothing or a slash, an alphanumeric, ".", "_", "__", dashes; or stuck.
  datatype Mode = Begin | Word | Dot | Under | Under2 | Dash | Stuck

  function Next(q: Mode, c: char): Mode
  {
    if Alnum(c) && !q.Stuck? then Word
    else match q
      case Word => if c == '.' then Dot else if c == '_' then Under else if c == '-' then Dash
                   else if c == '/' then Begin else Stuck
      case Under => if c == '_' then Under2 else Stuck
      case Dash => if c == '-' then Dash else Stuck
      case _ => Stuck
  }

  function Scan(q: Mode, s: string): Mode
    decreases |s|
  {
    if s == "" then q else Scan(Next(q, s[0]), s[1..])
  }

  // The mode after the longest prefix is a word: the name is well formed.
  predicate ValidName(s: string) { Scan(Begin, s) == Word }

  lemma {:induction false} ScanConcat(q: Mode, a: string, b: string)
    ensures Scan(q, a + b) == Scan(Scan(q, a), b)
    decreases |a|
  {
    if a == "" {
      assert a + b == b;
    } else {
      assert (a + b)[1..] == a[1..] + b;
      ScanConcat(Next(q, a[0]), a[1..], b);
    }
  }

  lemma ScanSplit(q: Mode, s: string, i: nat)
    requires i <= |s|
    ensures Scan(q, s) == Scan(Scan(q, s[..i]), s[i..])
  {
    ScanConcat(q, s[..i], s[i..]);
    assert s[..i] + s[i..] == s;
  }

  // ---- Every match is accepted ----

  lemma {:induction false} StarAlnumScans(q: Mode, s: string)
    requires InLanguage(Star(AnyAlnum), s) && q == Word
    ensures Scan(q, s) == Word
    decreases |s|
  {
    if s != "" {
      var i :| 0 < i <= |s| && InLanguage(AnyAlnum, s[..i]) && InLanguage(Star(AnyAlnum), s[i..]);
      assert s[1..] == s[i..];
      StarAlnumScans(Next(q, s[0]), s[1..]);
    }
  }

  lemma PlusAlnumScans(q: Mode, s: string)
    requires InLanguage(Plus(AnyAlnum), s) && !q.Stuck?
    ensures Scan(q, s) == Word
  {
    var i :| 0 <= i <= |s| && InLanguage(AnyAlnum, s[..i]) && InLanguage(Star(AnyAlnum), s[i..]);
    assert s[1..] == s[i..];
    StarAlnumScans(Next(q, s[0]), s[1..]);
  }

  lemma {:induction false} StarDashScans(s: string)
    requires InLanguage(Star(Lit("-")), s)
    ensures Scan(Dash, s) == Dash
    decreases |s|
  {
    if s != "" {
      var i :| 0 < i <= |s| && InLanguage(Lit("-"), s[..i]) && InLanguage(Star(Lit("-")), s[i..]);
      assert s[..i] == "-" && s[0] == s[..i][0];
      StarDashScans(s[1..]);
    }
  }

  lemma ScanCons(q: Mode, c: char, rest: string)
    ensures Scan(q, [c] + rest) == Scan(Next(q, c), rest)
  {
  }

  lemma SeparatorScans(s: string)
    requires InLanguage(Separator(), s)
    ensures !Scan(Word, s).Stuck?
  {
    assert InLanguage(Lit("."), s) || InLanguage(Alt(Lit("_"), Alt(Lit("__"), Plus(Lit("-")))), s);
    assert InLanguage(Lit("."), s) || InLanguage(Lit("_"), s) || InLanguage(Alt(Lit("__"), Plus(Lit("-"))), s);
    if InLanguage(Plus(Lit("-")), s) {
      var i :| 0 <= i <= |s| && InLanguage(Lit("-"), s[..i]) && InLanguage(Star(Lit("-")), s[i..]);
      assert s[..i] == "-" && s[0] == s[..i][0];
      StarDashScans(s[1..]);
    } else if InLanguage(Lit("__"), s) {
      assert s == "_" + "_" && "_" == ['_'] + "";
      ScanCons(Word, '_', "_");
      ScanCons(Under, '_', "");
    } else {
      assert s == "." || s == "_";
      assert s == [s[0]] + "";
      ScanCons(Word, s[0], "");
    }
  }

  lemma GroupScans(s: string)
    requires InLanguage(Group(), s)
    ensures Scan(Word, s) == Word
  {
    var i :| 0 <= i <= |s| && InLanguage(Separator(), s[..i]) && InLanguage(Plus(AnyAlnum), s[i..]);
    ScanSplit(Word, s, i);
    SeparatorScans(s[..i]);
    PlusAlnumScans(Scan(Word, s[..i]), s[i..]);
  }

  lemma {:induction false} StarGroupScans(s: string)
    requires InLanguage(Star(Group()), s)
    ensures Scan(Word, s) == Word
    decreases |s|
  {
    if s != "" {
      var i :| 0 < i <= |s| && InLanguage(Group(), s[..i]) && InLanguage(Star(Group()), s[i..]);
      ScanSplit(Word, s, i);
      GroupScans(s[..i]);
      StarGroupScans(s[i..]);
    }
  }

  lemma ComponentScans(s: string)
    requires InLanguage(Component(), s)
    ensures Scan(Begin, s) == Word
  {
    var i :| 0 <= i <= |s| && InLanguage(Plus(AnyAlnum), s[..i]) && InLanguage(Star(Group()), s[i..]);
    ScanSplit(Begin, s, i);
    PlusAlnumScans(Begin, s[..i]);
    StarGroupScans(s[i..]);
  }

  lemma {:induction false} StarTailScans(s: string)
    requires InLanguage(Star(Tail()), s)
    ensures Scan(Word, s) == Word
    decreases |s|
  {
    if s != "" {
      var i :| 0 < i <= |s| && InLanguage(Tail(), s[..i]) && InLanguage(Star(Tail()), s[i..]);
      var t := s[..i];
      var j :| 0 <= j <= |t| && InLanguage(Lit("/"), t[..j]) && InLanguage(Component(), t[j..]);
      assert t[..j] == "/" && t[0] == t[..j][0];
      ComponentScans(t[1..]);
      ScanSplit(Word, s, i);
      StarTailScans(s[i..]);
    }
  }

  lemma MatchIsValid(s: string)
    requires InLanguage(NamePattern(), s)
    ensures ValidName(s)
  {
    var i :| 0 <= i <= |s| && InLanguage(Component(), s[..i]) && InLanguage(Star(Tail()), s[i..]);
    ScanSplit(Begin, s, i);
    ComponentScans(s[..i]);
    StarTailScans(s[i..]);
  }

  // ---- Everything accepted is a match ----

  lemma CatMatches(a: Re, b: Re, s: string, t: string)
    requires InLanguage(a, s) && InLanguage(b, t)
    ensures InLanguage(Cat(a, b), s + t)
  {
    assert (s + t)[..|s|] == s && (s + t)[|s|..] == t;
  }

  lemma StarMatches(r: Re, s: string, t: string)
    requires InLanguage(r, s) && InLanguage(Star(r), t)
    ensures InLanguage(Star(r), s + t)
  {
    if s == "" {
      assert s + t == t;
    } else {
      assert (s + t)[..|s|] == s && (s + t)[|s|..] == t;
    }
  }

  // What is left to read after an alphanumeric: the rest of the word, groups, tails.
  ghost predicate Remainder(s: string, w: string, g: string, t: string)
  {
    s == w + g + t && InLanguage(Star(AnyAlnum), w) && InLanguage(Star(Group()), g) && InLanguage(Star(Tail()), t)
  }

  lemma PlusOf(c: char, w: string)
    requires Alnum(c) && InLanguage(Star(AnyAlnum), w)
    ensures InLanguage(Plus(AnyAlnum), [c] + w)
  {
    CatMatches(AnyAlnum, Star(AnyAlnum), [c], w);
  }

  // Dashes read in Dash mode, up to the alphanumeric that ends them.
  lemma {:induction false} DashesEnd(s: string) returns (i: nat)
    requires Scan(Dash, s) == Word
    ensures i < |s| && Alnum(s[i]) && InLanguage(Star(Lit("-")), s[..i]) && Scan(Word, s[i + 1..]) == Word
    decreases |s|
  {
    if Alnum(s[0]) {
      i := 0;
    } else {
      StuckStays(s[1..]);
      i := DashesEnd(s[1..]);
      StarMatches(Lit("-"), "-", s[1..][..i]);
      assert s[..i + 1] == "-" + s[1..][..i];
      assert s[i + 1 + 1..] == s[1..][i + 1..];
      i := i + 1;
    }
  }

  lemma {:induction false} StuckStays(s: string)
    ensures Scan(Stuck, s) == Stuck
  {
    if s != "" { StuckStays(s[1..]); }
  }

  // A separator, an alphanumeric and the remainder after it make a group and a remainder.
  lemma GroupRemainder(sep: string, c: char, rest: string, w: string, g: string, t: string)
    requires InLanguage(Separator(), sep) && Alnum(c) && Remainder(rest, w, g, t)
    ensures Remainder(sep + [c] + rest, "", sep + ([c] + w) + g, t)
  {
    PlusOf(c, w);
    CatMatches(Separator(), Plus(AnyAlnum), sep, [c] + w);
    StarMatches(Group(), sep + ([c] + w), g);
    assert sep + [c] + rest == "" + (sep + ([c] + w) + g) + t;
  }

  lemma WordRemainder(c: char, rest: string, w: string, g: string, t: string)
    requires Alnum(c) && Remainder(rest, w, g, t)
    ensures Remainder([c] + rest, [c] + w, g, t)
  {
    StarMatches(AnyAlnum, [c], w);
    assert [c] + rest == [c] + w + g + t;
  }

  lemma ComponentOf(c: char, w: string, g: string)
    requires Alnum(c) && InLanguage(Star(AnyAlnum), w) && InLanguage(Star(Group()), g)
    ensures InLanguage(Component(), [c] + w + g)
  {
    PlusOf(c, w);
    CatMatches(Plus(AnyAlnum), Star(Group()), [c] + w, g);
  }

  lemma TailRemainder(c: char, rest: string, w: string, g: string, t: string)
    requires Alnum(c) && Remainder(rest, w, g, t)
    ensures Remainder("/" + [c] + rest, "", "", "/" + ([c] + w + g) + t)
  {
    ComponentOf(c, w, g);
    CatMatches(Lit("/"), Component(), "/", [c] + w + g);
    StarMatches(Tail(), "/" + ([c] + w + g), t);
    assert "/" + [c] + rest == "" + "" + ("/" + ([c] + w + g) + t);
  }

  // A name stuck after its first character is not accepted.
  lemma NotStuck(q: Mode, s: string)
    requires Scan(q, s) == Word && q != Word
    ensures s != "" && !Next(q, s[0]).Stuck? && Scan(Next(q, s[0]), s[1..]) == Word
  {
    assert s != "";
    StuckStays(s[1..]);
  }

  lemma SeparatorEnds(s: string) returns (sep: string, c: char, rest: string)
    requires Scan(Word, s) == Word && s != "" && !Alnum(s[0]) && s[0] != '/'
    ensures InLanguage(Separator(), sep) && Alnum(c) && s == sep + [c] + rest && Scan(Word, rest) == Word
  {
    StuckStays(s[1..]);
    var q := Next(Word, s[0]);
    if q.Dash? {
      var i := DashesEnd(s[1..]);
      sep, c, rest := s[..i + 1], s[i + 1], s[1..][i + 1..];
      CatMatches(Lit("-"), Star(Lit("-")), "-", s[1..][..i]);
      assert sep == "-" + s[1..][..i];
      return;
    }
    NotStuck(q, s[1..]);
    assert s[1..][1..] == s[2..];
    if s[1] == '_' {
      NotStuck(Under2, s[2..]);
      sep, c, rest := "__", s[2], s[2..][1..];
    } else {
      sep, c, rest := [s[0]], s[1], s[2..];
    }
  }

  lemma {:induction false} AcceptedRemainder(s: string) returns (w: string, g: string, t: string)
    requires Scan(Word, s) == Word
    ensures Remainder(s, w, g, t)
    decreases |s|
  {
    if s == "" {
      w, g, t := "", "", "";
    } else if Alnum(s[0]) {
      w, g, t := AcceptedRemainder(s[1..]);
      WordRemainder(s[0], s[1..], w, g, t);
      assert s == [s[0]] + s[1..];
      w := [s[0]] + w;
    } else if s[0] == '/' {
      NotStuck(Begin, s[1..]);
      var c, rest := s[1], s[1..][1..];
      w, g, t := AcceptedRemainder(rest);
      TailRemainder(c, rest, w, g, t);
      assert s == "/" + [c] + rest;
      w, g, t := "", "", "/" + ([c] + w + g) + t;
    } else {
      var sep, c, rest := SeparatorEnds(s);
      w, g, t := AcceptedRemainder(rest);
      GroupRemainder(sep, c, rest, w, g, t);
      w, g := "", sep + ([c] + w) + g;
    }
  }

  // The recogniser accepts exactly the language of the regular expression.
  lemma ValidNameIsPattern(s: string)
    ensures ValidName(s) <==> InLanguage(NamePattern(), s)
  {
    if InLanguage(NamePattern(), s) {
      MatchIsValid(s);
    }
    if ValidName(s) {
      assert s != "";
      StuckStays(s[1..]);
      var w, g, t := AcceptedRemainder(s[1..]);
      ComponentOf(s[0], w, g);
      CatMatches(Component(), Star(Tail()), [s[0]] + w + g, t);
      assert s == [s[0]] + w + g + t;
    }
  }
}
