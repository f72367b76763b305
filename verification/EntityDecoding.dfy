/** Decoding the five predefined entities by five replacements in a row (libs/platform/xslt/src/lib/xslt.service.ts,
    decodeEntities; the entities are those of section 4.6 of XML 1.0). */
module EntityDecoding {

  const SPECIAL := "&<>\"'"

  predicate IsSpecial(c: char) {
    c == '&' || c == '<' || c == '>' || c == '"' || c == '\''
  }

  predicate IsPlain(s: string) {
    forall k :: 0 <= k < |s| ==> !IsSpecial(s[k])
  }

  /** The entity of a special character, less its ampersand. */
  function Name(c: char): (name: string)
    requires IsSpecial(c)
    ensures IsPlain(name) && |name| >= 3
  {
    if c == '&' then "amp;" else if c == '<' then "lt;" else if c == '>' then "gt;"
    else if c == '"' then "quot;" else "apos;"
  }

  function Entity(c: char): string
    requires IsSpecial(c)
  {
    ['&'] + Name(c)
  }

  /** A global replacement: from left to right, never looking at what it has written. */
  function ReplaceAll(s: string, pattern: string, c: char): (r: string)
    requires pattern != ""
    ensures |r| <= |s|
    decreases |s|
  {
    if s == "" then ""
    else if pattern <= s then [c] + ReplaceAll(s[|pattern|..], pattern, c)
    else [s[0]] + ReplaceAll(s[1..], pattern, c)
  }

  function Undo(s: string, c: char): string
    requires IsSpecial(c)
  {
    ReplaceAll(s, Entity(c), c)
  }

  function DecodeEntities(s: string): string {
    Undo(Undo(Undo(Undo(Undo(s, '&'), '<'), '>'), '"'), '\'')
  }

  /** Character by character, every special character of `chars` becomes its entity. */
  function Escape(s: string, chars: string): string {
    if s == "" then ""
    else (if IsSpecial(s[0]) && s[0] in chars then Entity(s[0]) else [s[0]]) + Escape(s[1..], chars)
  }

  lemma {:induction false} EscapeOfConcat(x: string, y: string, chars: string)
    ensures Escape(x + y, chars) == Escape(x, chars) + Escape(y, chars)
  {
    if x == "" {
      assert x + y == y;
    } else {
      assert (x + y)[1..] == x[1..] + y;
      EscapeOfConcat(x[1..], y, chars);
    }
  }

  lemma {:induction false} PlainIsUntouched(s: string, chars: string)
    requires IsPlain(s)
    ensures Escape(s, chars) == s
  {
    if s != "" {
      PlainIsUntouched(s[1..], chars);
    }
  }

  /** What an escaped text shows of plain characters at its start, the text itself starts with. */
  lemma {:induction false} PlainPrefixIsRaw(plain: string, s: string, chars: string)
    requires IsPlain(plain) && plain <= Escape(s, chars)
    ensures plain <= s
    decreases |plain|
  {
    if plain != "" {
      assert Escape(s, chars)[0] == plain[0];
      assert plain[1..] <= Escape(s[1..], chars);
      PlainPrefixIsRaw(plain[1..], s[1..], chars);
    }
  }

  lemma PrefixShows(c: char, text: string)
    requires IsSpecial(c) && Entity(c) <= text
    ensures text[0] == '&' && text[1] == Name(c)[0] && text[2] == Name(c)[1]
  {
    assert text[0] == Entity(c)[0] && text[1] == Entity(c)[1] && text[2] == Entity(c)[2];
  }

  lemma Skips(x: char, rest: string, c: char)
    requires IsSpecial(c) && !(Entity(c) <= [x] + rest)
    ensures Undo([x] + rest, c) == [x] + Undo(rest, c)
  {
    assert ([x] + rest)[1..] == rest;
  }

  lemma WalksOverOne(x: char, rest: string, c: char)
    requires !IsSpecial(x) && IsSpecial(c)
    ensures Undo([x] + rest, c) == [x] + Undo(rest, c)
  {
    if Entity(c) <= [x] + rest {
      PrefixShows(c, [x] + rest);
      assert false;
    }
    Skips(x, rest, c);
  }

  /** A replacement walks over text in which its pattern cannot start. */
  lemma {:induction false} WalksOver(plain: string, rest: string, c: char)
    requires IsPlain(plain) && IsSpecial(c)
    ensures Undo(plain + rest, c) == plain + Undo(rest, c)
    decreases |plain|
  {
    if plain == "" {
      assert plain + rest == rest;
    } else {
      var tail := plain[1..] + rest;
      assert plain + rest == [plain[0]] + tail;
      WalksOverOne(plain[0], tail, c);
      WalksOver(plain[1..], rest, c);
      assert [plain[0]] + (plain[1..] + Undo(rest, c)) == plain + Undo(rest, c);
    }
  }

  lemma EntitiesDiffer(c: char, d: char, rest: string)
    requires IsSpecial(c) && IsSpecial(d) && c != d
    ensures !(Entity(c) <= Entity(d) + rest)
  {
    var text := Entity(d) + rest;
    assert text[1] == Name(d)[0] && text[2] == Name(d)[1];
    assert Name(c)[0] != Name(d)[0] || Name(c)[1] != Name(d)[1];
    if Entity(c) <= text {
      PrefixShows(c, text);
      assert false;
    }
  }

  /** … and so over another character's entity. */
  lemma WalksOverEntity(d: char, rest: string, c: char)
    requires IsSpecial(c) && IsSpecial(d) && c != d
    ensures Undo(Entity(d) + rest, c) == Entity(d) + Undo(rest, c)
  {
    var tail := Name(d) + rest;
    assert Entity(d) + rest == ['&'] + tail;
    EntitiesDiffer(c, d, rest);
    Skips('&', tail, c);
    WalksOver(Name(d), rest, c);
    Regroup(d, Undo(rest, c));
  }

  lemma Regroup(d: char, rest: string)
    requires IsSpecial(d)
    ensures ['&'] + (Name(d) + rest) == Entity(d) + rest
  {}

  lemma TakesEntity(c: char, rest: string)
    requires IsSpecial(c)
    ensures Undo(Entity(c) + rest, c) == [c] + Undo(rest, c)
  {
    assert (Entity(c) + rest)[|Entity(c)|..] == rest;
  }

  /** The first replacement undoes the ampersands and nothing else. */
  lemma {:induction false} UndoAmpersands(s: string)
    ensures Undo(Escape(s, SPECIAL), '&') == Escape(s, "<>\"'")
  {
    if s != "" {
      var rest := Escape(s[1..], SPECIAL);
      UndoAmpersands(s[1..]);
      if s[0] == '&' {
        TakesEntity('&', rest);
      } else if IsSpecial(s[0]) {
        WalksOverEntity(s[0], rest, '&');
      } else {
        WalksOver([s[0]], rest, '&');
      }
    }
  }

  /** Every later replacement undoes its character, but also the entity where the text spelled it out. */
  lemma {:induction false} UndoOther(s: string, c: char, chars: string)
    requires IsSpecial(c) && c != '&' && c !in chars && '&' !in chars
    ensures Undo(Escape(s, [c] + chars), c) == Escape(Undo(s, c), chars)
    decreases |s|
  {
    if s != "" {
      var all := [c] + chars;
      var e := Entity(c);
      if e <= s {
        UndoOther(s[|e|..], c, chars);
        SpelledOut(s, c, chars);
      } else {
        var rest := Escape(s[1..], all);
        UndoOther(s[1..], c, chars);
        assert Undo(s, c) == [s[0]] + Undo(s[1..], c);
        assert Escape(Undo(s, c), chars) ==
            (if IsSpecial(s[0]) && s[0] in chars then Entity(s[0]) else [s[0]]) + Escape(Undo(s[1..], c), chars);
        if s[0] == c {
          TakesEntity(c, rest);
        } else if IsSpecial(s[0]) && s[0] in chars {
          WalksOverEntity(s[0], rest, c);
        } else {
          RawCharacter(s, c, chars);
        }
      }
    }
  }

  lemma EntityIsUntouched(c: char, chars: string)
    requires IsSpecial(c) && '&' !in chars
    ensures Escape(Entity(c), chars) == Entity(c)
  {
    EscapeOfConcat(['&'], Name(c), chars);
    PlainIsUntouched(Name(c), chars);
    assert Escape(['&'], chars) == ['&'] + Escape([], chars);
  }

  lemma SpelledOut(s: string, c: char, chars: string)
    requires IsSpecial(c) && c != '&' && c !in chars && '&' !in chars && Entity(c) <= s
    ensures var n := |Entity(c)|;
            && Undo(Escape(s, [c] + chars), c) == [c] + Undo(Escape(s[n..], [c] + chars), c)
            && Escape(Undo(s, c), chars) == [c] + Escape(Undo(s[n..], c), chars)
  {
    var n, all := |Entity(c)|, [c] + chars;
    assert s == Entity(c) + s[n..];
    EscapeOfConcat(Entity(c), s[n..], all);
    EntityIsUntouched(c, all);
    TakesEntity(c, Escape(s[n..], all));
  }

  lemma EntityPrefixIsRaw(s: string, c: char, chars: string)
    requires s != "" && IsSpecial(c) && !(IsSpecial(s[0]) && s[0] in chars) && Entity(c) <= Escape(s, chars)
    ensures Entity(c) <= s
  {
    var text := Escape(s, chars);
    assert text[0] == s[0] == '&';
    assert text[1..] == Escape(s[1..], chars);
    assert Name(c) == Entity(c)[1..] <= text[1..];
    PlainPrefixIsRaw(Name(c), s[1..], chars);
    assert s == ['&'] + s[1..];
  }

  lemma RawCharacter(s: string, c: char, chars: string)
    requires s != "" && IsSpecial(c) && c != '&' && !(Entity(c) <= s) && s[0] != c
        && !(IsSpecial(s[0]) && s[0] in chars)
    ensures Undo(Escape(s, [c] + chars), c) == [s[0]] + Undo(Escape(s[1..], [c] + chars), c)
  {
    var all := [c] + chars;
    if Entity(c) <= Escape(s, all) {
      EntityPrefixIsRaw(s, c, all);
      assert false;
    }
    assert Escape(s, all)[1..] == Escape(s[1..], all);
  }

  // ----------------------------------------------------------------- what decoding an escaped text gives

  /** The text with its spelled-out entities other than the ampersand's replaced. */
  function Collapse(s: string): string {
    Undo(Undo(Undo(Undo(s, '<'), '>'), '"'), '\'')
  }

  lemma {:induction false} NothingToEscape(s: string)
    ensures Escape(s, "") == s
  {
    if s != "" {
      NothingToEscape(s[1..]);
    }
  }

  lemma DecodeOfEscape(s: string)
    ensures DecodeEntities(Escape(s, SPECIAL)) == Collapse(s)
  {
    UndoAmpersands(s);
    assert "<>\"'" == ['<'] + ">\"'" && ">\"'" == ['>'] + "\"'" && "\"'" == ['"'] + "'" && "'" == ['\''] + "";
    UndoOther(s, '<', ">\"'");
    var s1 := Undo(s, '<');
    UndoOther(s1, '>', "\"'");
    var s2 := Undo(s1, '>');
    UndoOther(s2, '"', "'");
    var s3 := Undo(s2, '"');
    UndoOther(s3, '\'', "");
    NothingToEscape(Undo(s3, '\''));
  }

  predicate OccursAt(s: string, pattern: string, k: int) {
    0 <= k <= |s| && pattern <= s[k..]
  }

  ghost predicate Spells(s: string, pattern: string) {
    exists k :: OccursAt(s, pattern, k)
  }

  /** A replacement changes a text exactly when it finds its pattern, and then shortens it. */
  lemma {:induction false} UndoChangesIffSpelled(s: string, c: char)
    requires IsSpecial(c)
    ensures if Spells(s, Entity(c)) then |Undo(s, c)| < |s| else Undo(s, c) == s
    decreases |s|
  {
    var e := Entity(c);
    if s == "" {
    } else if e <= s {
      assert OccursAt(s, e, 0);
    } else {
      UndoChangesIffSpelled(s[1..], c);
      if Spells(s, e) {
        var k :| OccursAt(s, e, k);
        assert k > 0 by { assert s[0..] == s; }
        assert s[1..][k - 1..] == s[k..];
        assert OccursAt(s[1..], e, k - 1);
      }
      if Spells(s[1..], e) {
        var k :| OccursAt(s[1..], e, k);
        assert s[1..][k..] == s[k + 1..];
        assert OccursAt(s, e, k + 1);
      }
    }
  }

  /** Escaping writes the predefined entities for their five characters, and every other character as it is. */
  lemma EscapedLetter(x: char, s: string)
    ensures Escape([x] + s, SPECIAL) ==
            (match x
             case '&' => "&amp;" case '<' => "&lt;" case '>' => "&gt;" case '"' => "&quot;" case '\'' => "&apos;"
             case _ => [x]) + Escape(s, SPECIAL)
  {
    assert ([x] + s)[0] == x && ([x] + s)[1..] == s;
    assert Entity('&') == "&amp;" && Entity('<') == "&lt;" && Entity('>') == "&gt;";
    assert Entity('"') == "&quot;" && Entity('\'') == "&apos;";
  }

  /** Decoding inverts escaping on exactly the texts that spell out none of the four other entities. */
  lemma DecodingInvertsEscapingIff(s: string)
    ensures DecodeEntities(Escape(s, SPECIAL)) == s <==>
            !Spells(s, "&lt;") && !Spells(s, "&gt;") && !Spells(s, "&quot;") && !Spells(s, "&apos;")
  {
    assert Entity('<') == "&lt;" && Entity('>') == "&gt;" && Entity('"') == "&quot;" && Entity('\'') == "&apos;";
    DecodeOfEscape(s);
    UndoChangesIffSpelled(s, '<');
    var s1 := Undo(s, '<');
    UndoChangesIffSpelled(s1, '>');
    var s2 := Undo(s1, '>');
    UndoChangesIffSpelled(s2, '"');
    UndoChangesIffSpelled(Undo(s2, '"'), '\'');
  }
}
