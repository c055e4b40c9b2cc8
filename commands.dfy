/**
 * `parse_command` (text_adventure_game/src/game.py): lower-case, strip, then
 * split once on the first whitespace run.
 */
module Commands {
  import opened Wrappers
  import opened Strings

  /** A verb and an optional noun; no verb only for blank input. */
  datatype Command = Command(verb: Option<string>, noun: Option<string>)

  /** Length of the leading run of non-whitespace characters. */
  function WordEnd(s: string): (n: nat)
    ensures n <= |s| && NoSpace(s[..n])
    ensures n < |s| ==> IsSpace(s[n])
  {
    if s == [] || IsSpace(s[0]) then 0
    else
      var m := WordEnd(s[1..]);
      assert s[..m + 1] == [s[0]] + s[1..][..m];
      m + 1
  }

  lemma LastOfSuffix(s: string, n: nat)
    requires n <= |s|
    ensures n < |s| ==> s[n..][|s| - 1 - n] == s[|s| - 1]
  {
  }

  /** `s` is `verb`, then a whitespace run, then `noun`. */
  predicate SplitsInto(s: string, verb: string, noun: string) {
    && |verb| + |noun| < |s|
    && s[..|verb|] == verb
    && s[|s| - |noun|..] == noun
    && AllSpace(s[|verb|..|s| - |noun|])
  }

  /** `s.split(maxsplit=1)` on text that is already stripped: the first
      word, and the rest after the whitespace run that ends it, if any. */
  function Words(s: string): (c: Command)
    requires Trimmed(s)
    ensures c.verb.None? <==> s == []
    ensures c.verb.None? ==> c.noun.None?
    ensures IsLowerCase(s) && c.verb.Some? ==> IsLowerCase(c.verb.value)
    ensures IsLowerCase(s) && c.noun.Some? ==> IsLowerCase(c.noun.value)
  {
    if s == [] then Command(None, None)
    else
      var n := WordEnd(s);
      var rest := TrimStart(s[n..]);
      WordBreak(s, n, rest);
      if rest == [] then Command(Some(s[..n]), None)
      else Command(Some(s[..n]), Some(rest))
  }

  /** The verb is the leading run of non-whitespace; with no noun it is the
      whole text, and otherwise the text is the verb, a whitespace run and
      the noun, which has no whitespace at either end. */
  lemma WordsShape(s: string)
    requires Trimmed(s)
    ensures var c := Words(s);
      && (c.verb.Some? ==> c.verb.value != [] && NoSpace(c.verb.value))
      && (c.verb.Some? && c.noun.None? ==> s == c.verb.value)
      && (c.noun.Some? ==> c.noun.value != [] && Trimmed(c.noun.value))
      && (c.noun.Some? ==> SplitsInto(s, c.verb.value, c.noun.value))
  {
    if s != [] {
      var n := WordEnd(s);
      WordBreak(s, n, TrimStart(s[n..]));
    }
  }

  /** Where the first word of stripped, non-empty text ends, and what the
      whitespace run after it leaves, from what `WordEnd` and `TrimStart`
      promise. */
  lemma WordBreak(s: string, n: nat, rest: string)
    requires Trimmed(s) && s != [] && n <= |s| && NoSpace(s[..n]) && (n < |s| ==> IsSpace(s[n]))
    requires |rest| <= |s| - n && rest == s[n..][|s| - n - |rest|..]
    requires AllSpace(s[n..][..|s| - n - |rest|]) && (rest == [] || !IsSpace(rest[0]))
    ensures 0 < n && |s[..n]| == n
    ensures rest == [] ==> s == s[..n]
    ensures rest != [] ==> Trimmed(rest) && SplitsInto(s, s[..n], rest)
    ensures IsLowerCase(s) ==> IsLowerCase(s[..n]) && IsLowerCase(rest)
  {
    var tail := s[n..];
    if rest == [] {
      LastOfSuffix(s, n);
      assert tail[..|tail|] == tail;
      assert s == s[..n];
    } else {
      SuffixOfSuffix(s, n, rest);
      assert rest[|rest| - 1] == s[|s| - 1];
      assert tail[0] == s[n];
      assert s[n..|s| - |rest|] == tail[..|tail| - |rest|];
    }
    if IsLowerCase(s) {
      SliceLowerCase(s, 0, n);
      SliceLowerCase(s, |s| - |rest|, |s|);
    }
  }

  /** A suffix of a suffix is a suffix. */
  lemma SuffixOfSuffix(s: string, n: nat, r: string)
    requires n <= |s| && |r| <= |s| - n && r == s[n..][|s| - n - |r|..]
    ensures s[|s| - |r|..] == r
  {
  }

  /** `parse_command`: lower-case, strip, split once. Blank input gives
      neither verb nor noun; otherwise both parts are lower case. */
  function ParseCommand(commandString: string): (c: Command)
    ensures c.verb.None? <==> AllSpace(commandString)
    ensures c.verb.None? ==> c.noun.None?
    ensures c.verb.Some? ==> IsLowerCase(c.verb.value)
    ensures c.noun.Some? ==> IsLowerCase(c.noun.value)
  {
    var lowered := Lower(commandString);
    LowerFacts(commandString);
    assert AllSpace(lowered) <==> AllSpace(commandString);
    var s := Strip(lowered);
    var c := Words(s);
    c
  }

  /** Lower-casing keeps whitespace where it was. */
  lemma LowerPadded(w1: string, x: string, w2: string)
    requires AllSpace(w1) && AllSpace(w2)
    ensures Lower(w1 + x + w2) == w1 + Lower(x) + w2
  {
  }

  lemma LowerShape(x: string)
    ensures NoSpace(x) ==> NoSpace(Lower(x))
    ensures Trimmed(x) ==> Trimmed(Lower(x))
  {
  }

  /** One word on its own is a verb without a noun. */
  lemma WordsOfWord(v: string)
    requires v != [] && NoSpace(v)
    ensures Words(v) == Command(Some(v), None)
  {
    WordEndOf(v, []);
    assert v + [] == v;
  }

  /** The first word ends where the first whitespace character (or the
      text) begins. */
  lemma {:induction false} WordEndOf(v: string, t: string)
    requires NoSpace(v)
    requires t == [] || IsSpace(t[0])
    ensures WordEnd(v + t) == |v|
  {
    if v != [] {
      assert (v + t)[1..] == v[1..] + t;
      WordEndOf(v[1..], t);
    } else {
      assert v + t == t;
    }
  }

  /** A word, a whitespace run and a trimmed rest are a verb and a noun. */
  lemma WordsOfPair(v: string, gap: string, rest: string)
    requires v != [] && NoSpace(v)
    requires gap != [] && AllSpace(gap)
    requires rest != [] && Trimmed(rest)
    ensures Trimmed(v + gap + rest)
    ensures Words(v + gap + rest) == Command(Some(v), Some(rest))
  {
    var s := v + gap + rest;
    assert s[0] == v[0] && s[|s| - 1] == rest[|rest| - 1];
    assert s == v + (gap + rest);
    WordEndOf(v, gap + rest);
    assert s[..|v|] == v;
    assert s[|v|..] == gap + rest;
    TrimStartOfSpaces(gap, rest);
  }

  /** A single word, padded with whitespace on either side, parses to that
      word lower-cased and no noun ("LOOK", "   drop   "). */
  lemma ParseVerb(w1: string, verb: string, w2: string)
    requires AllSpace(w1) && AllSpace(w2)
    requires verb != [] && NoSpace(verb)
    ensures ParseCommand(w1 + verb + w2) == Command(Some(Lower(verb)), None)
  {
    var v := Lower(verb);
    LowerPadded(w1, verb, w2);
    LowerShape(verb);
    StripPadded(w1, v, w2);
    WordsOfWord(v);
  }

  /** A word, a whitespace run and a trimmed rest, padded on either side,
      parse to the word and the rest, both lower-cased, the rest keeping its
      inner whitespace ("  take  old scroll  " gives "take" and "old scroll"). */
  lemma ParseVerbNoun(w1: string, verb: string, gap: string, noun: string, w2: string)
    requires AllSpace(w1) && AllSpace(w2) && AllSpace(gap) && gap != []
    requires verb != [] && NoSpace(verb)
    requires noun != [] && Trimmed(noun)
    ensures ParseCommand(w1 + verb + gap + noun + w2) == Command(Some(Lower(verb)), Some(Lower(noun)))
  {
    var v, n := Lower(verb), Lower(noun);
    LowerShape(verb);
    LowerShape(noun);
    var x := verb + gap + noun;
    LowerConcatThree(verb, gap, noun);
    Regroup(w1, verb, gap, noun, w2);
    LowerPadded(w1, x, w2);
    WordsOfPair(v, gap, n);
    StripPadded(w1, v + gap + n, w2);
  }

  lemma Regroup(a: string, b: string, c: string, d: string, e: string)
    ensures a + b + c + d + e == a + (b + c + d) + e
  {
  }

  lemma LowerConcatThree(a: string, gap: string, b: string)
    requires AllSpace(gap)
    ensures Lower(a + gap + b) == Lower(a) + gap + Lower(b)
  {
  }

  /** The same for text already in lower case: it parses to itself. */
  lemma ParseLowerVerbNoun(w1: string, verb: string, gap: string, noun: string, w2: string)
    requires AllSpace(w1) && AllSpace(w2) && AllSpace(gap) && gap != []
    requires verb != [] && NoSpace(verb) && IsLowerCase(verb)
    requires noun != [] && Trimmed(noun) && IsLowerCase(noun)
    ensures ParseCommand(w1 + verb + gap + noun + w2) == Command(Some(verb), Some(noun))
  {
    ParseVerbNoun(w1, verb, gap, noun, w2);
    LowerFacts(verb);
    LowerFacts(noun);
  }

  lemma ParseGoNorth()
    ensures ParseCommand("go north") == Command(Some("go"), Some("north"))
  {
    assert NoSpace("go") && IsLowerCase("go");
    assert Trimmed("north") && IsLowerCase("north");
    assert "" + "go" + " " + "north" + "" == "go north";
    ParseLowerVerbNoun("", "go", " ", "north", "");
  }

  lemma ParseTakeOldScroll()
    ensures ParseCommand("  take  old scroll  ") == Command(Some("take"), Some("old scroll"))
  {
    assert NoSpace("take") && IsLowerCase("take");
    assert Trimmed("old scroll") && IsLowerCase("old scroll");
    assert AllSpace("  ");
    assert "  " + "take" + "  " + "old scroll" + "  " == "  take  old scroll  ";
    ParseLowerVerbNoun("  ", "take", "  ", "old scroll", "  ");
  }

  lemma ParseDropPotion()
    ensures ParseCommand("  drop  potion  ") == Command(Some("drop"), Some("potion"))
  {
    assert NoSpace("drop") && IsLowerCase("drop");
    assert Trimmed("potion") && IsLowerCase("potion");
    assert AllSpace("  ");
    assert "  " + "drop" + "  " + "potion" + "  " == "  drop  potion  ";
    ParseLowerVerbNoun("  ", "drop", "  ", "potion", "  ");
  }

  lemma ParseUseRustyKey()
    ensures ParseCommand("use rusty key") == Command(Some("use"), Some("rusty key"))
  {
    assert NoSpace("use") && IsLowerCase("use");
    assert Trimmed("rusty key") && IsLowerCase("rusty key");
    assert "" + "use" + " " + "rusty key" + "" == "use rusty key";
    ParseLowerVerbNoun("", "use", " ", "rusty key", "");
  }

  lemma ParseTakeScroll()
    ensures ParseCommand("take scroll") == Command(Some("take"), Some("scroll"))
  {
    assert NoSpace("take") && IsLowerCase("take");
    assert Trimmed("scroll") && IsLowerCase("scroll");
    assert "" + "take" + " " + "scroll" + "" == "take scroll";
    ParseLowerVerbNoun("", "take", " ", "scroll", "");
  }

  lemma ParseUseKey()
    ensures ParseCommand("use key") == Command(Some("use"), Some("key"))
  {
    assert NoSpace("use") && IsLowerCase("use");
    assert Trimmed("key") && IsLowerCase("key");
    assert "" + "use" + " " + "key" + "" == "use key";
    ParseLowerVerbNoun("", "use", " ", "key", "");
  }

  /** Blank input, of whatever length, parses to no verb and no noun. */
  lemma ParseBlank(s: string)
    requires AllSpace(s)
    ensures ParseCommand(s) == Command(None, None)
  {
  }

  /** The same for one word already in lower case: it parses to itself. */
  lemma ParseLowerVerb(w1: string, verb: string, w2: string)
    requires AllSpace(w1) && AllSpace(w2)
    requires verb != [] && NoSpace(verb) && IsLowerCase(verb)
    ensures ParseCommand(w1 + verb + w2) == Command(Some(verb), None)
  {
    ParseVerb(w1, verb, w2);
    LowerFacts(verb);
  }

  lemma ParseLook()
    ensures ParseCommand("look") == Command(Some("look"), None)
  {
    assert NoSpace("look") && IsLowerCase("look");
    assert "" + "look" + "" == "look";
    ParseLowerVerb("", "look", "");
  }

  lemma ParseInventory()
    ensures ParseCommand("inventory") == Command(Some("inventory"), None)
  {
    assert NoSpace("inventory") && IsLowerCase("inventory");
    assert "" + "inventory" + "" == "inventory";
    ParseLowerVerb("", "inventory", "");
  }

  lemma ParseQuit()
    ensures ParseCommand("quit") == Command(Some("quit"), None)
  {
    assert NoSpace("quit") && IsLowerCase("quit");
    assert "" + "quit" + "" == "quit";
    ParseLowerVerb("", "quit", "");
  }

  /** Upper-case input is folded: "LOOK" is "look". */
  lemma ParseLookUpper()
    ensures ParseCommand("LOOK") == Command(Some("look"), None)
  {
    assert NoSpace("LOOK");
    assert "" + "LOOK" + "" == "LOOK";
    ParseVerb("", "LOOK", "");
    LowerLOOK();
  }

  lemma LowerLOOK()
    ensures Lower("LOOK") == "look"
  {
    var r := Lower("LOOK");
    assert r[0] == LowerChar('L') == 'l';
    assert r[1] == LowerChar('O') == 'o';
    assert r[2] == LowerChar('O') == 'o';
    assert r[3] == LowerChar('K') == 'k';
  }

  lemma ParseDropPadded()
    ensures ParseCommand("   drop   ") == Command(Some("drop"), None)
  {
    assert NoSpace("drop") && IsLowerCase("drop");
    assert AllSpace("   ");
    assert "   " + "drop" + "   " == "   drop   ";
    ParseLowerVerb("   ", "drop", "   ");
  }
}
