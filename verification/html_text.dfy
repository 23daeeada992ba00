/**
 * The text helpers of the blog feed screen. `stripHtml` runs two global
 * regular-expression replacements and a trim:
 *   html.replace(/<[^>]*>/g, '').replace(/&[^;]+;/g, ' ').trim()
 * and `truncateText` cuts a text to a maximum length with an ellipsis.
 * Each global replacement is modelled as the left-to-right scan the regular
 * expression engine performs: at each position either the pattern matches
 * (and the scan continues after the match) or the character is kept.
 */
module HtmlText {
  import opened JsString

  // ------------------------------------------------------------- tag pass

  /** `<[^>]*>` matches at the start of `s`: a `<` with a `>` somewhere
      after it (the match ends at the first such `>`). */
  predicate TagAt(s: string)
  {
    |s| > 0 && s[0] == '<' && '>' in s[1..]
  }

  /** Where the tag pattern matches, the match is `s[..k + 1]` for the
      first `>` at `k`: a `<`, characters other than `>`, and a `>`. */
  lemma TagMatch(s: string)
    requires TagAt(s)
    ensures var k := IndexOf(s, '>');
      1 <= k && s[0] == '<' && s[k] == '>' && '>' !in s[1..k]
  {
    var k := IndexOf(s, '>');
    assert s[1..k] == s[..k][1..];
  }

  /** The tag pattern matches nowhere in `s`: no `<` is followed anywhere
      later by a `>`. */
  predicate NoTag(s: string)
  {
    forall i :: 0 <= i < |s| && s[i] == '<' ==> '>' !in s[i + 1..]
  }

  lemma NoTagCons(c: char, r: string)
    requires NoTag(r) && (c == '<' ==> '>' !in r)
    ensures NoTag([c] + r)
  {
    var s := [c] + r;
    assert s[1..] == r;
    forall i | 1 <= i < |s| && s[i] == '<' ensures '>' !in s[i + 1..] {
      assert s[i] == r[i - 1] && s[i + 1..] == r[i..];
    }
  }

  lemma NoTagSlice(s: string, a: nat, b: nat)
    requires NoTag(s) && a <= b <= |s|
    ensures NoTag(s[a..b])
  {
    var t := s[a..b];
    forall i | 0 <= i < |t| && t[i] == '<' ensures '>' !in t[i + 1..] {
      assert t[i] == s[a + i];
      assert t[i + 1..] == s[a + i + 1..][..b - (a + i + 1)];
    }
  }

  /** In a text with no tag match, a leading `<` has no `>` after it. */
  lemma NoTagHead(s: string)
    requires NoTag(s) && |s| > 0 && s[0] == '<'
    ensures '>' !in s[1..]
  {
  }

  /** `html.replace(/<[^>]*>/g, '')`. */
  function StripTags(s: string): (r: string)
    ensures |r| <= |s|
    ensures forall c :: c in r ==> c in s
    ensures NoTag(r)
    decreases |s|
  {
    if s == [] then []
    else if TagAt(s) then StripTags(s[IndexOf(s, '>') + 1..])
    else
      var rest := StripTags(s[1..]);
      assert s[0] == '<' ==> '>' !in rest;
      NoTagCons(s[0], rest);
      [s[0]] + rest
  }

  /** A text with no tag match goes through the tag pass unchanged. */
  lemma {:induction false} StripTagsNoop(s: string)
    requires NoTag(s)
    ensures StripTags(s) == s
    decreases |s|
  {
    if s != [] {
      if s[0] == '<' {
        NoTagHead(s);
      }
      NoTagSlice(s, 1, |s|);
      StripTagsNoop(s[1..]);
      assert StripTags(s) == [s[0]] + StripTags(s[1..]);
      assert s == [s[0]] + s[1..];
    }
  }

  /** A tag match after text with no `<` is deleted, and the text before
      it and the tag pass of the text after it are kept. */
  lemma {:induction false} TagDecomp(p: string, m: string, q: string)
    requires '<' !in p
    requires |m| >= 2 && m[0] == '<' && m[|m| - 1] == '>' && '>' !in m[..|m| - 1]
    ensures StripTags(p + m + q) == p + StripTags(q)
    decreases |p|
  {
    var s := p + m + q;
    if p == [] {
      assert s == m + q;
      assert s[..|m| - 1] == m[..|m| - 1] && s[|m| - 1] == '>';
      assert s[1..][|m| - 2] == '>';
      assert IndexOf(s, '>') == |m| - 1;
      assert s[|m|..] == q;
    } else {
      assert s[0] == p[0] && s[0] != '<';
      assert s[1..] == p[1..] + m + q;
      TagDecomp(p[1..], m, q);
      assert p == [p[0]] + p[1..];
    }
  }

  // ---------------------------------------------------------- entity pass

  /** `&[^;]+;` matches at the start of `s`: a `&`, at least one character
      other than `;`, and a `;` after it (the match ends at the first). */
  predicate EntityAt(s: string)
  {
    |s| >= 2 && s[0] == '&' && s[1] != ';' && ';' in s[2..]
  }

  /** Where the entity pattern matches, the match is `s[..k + 1]` for the
      first `;` at `k`: a `&`, at least one character other than `;`, and
      a `;`. */
  lemma EntityMatch(s: string)
    requires EntityAt(s)
    ensures var k := IndexOf(s, ';');
      2 <= k && s[0] == '&' && s[k] == ';' && ';' !in s[1..k]
  {
    var k := IndexOf(s, ';');
    assert s[1..k] == s[..k][1..];
  }

  /** The entity pattern matches nowhere in `s`. */
  predicate NoEntity(s: string)
  {
    forall i :: 0 <= i < |s| ==> !EntityAt(s[i..])
  }

  lemma NoEntityCons(c: char, r: string)
    requires NoEntity(r) && !EntityAt([c] + r)
    ensures NoEntity([c] + r)
  {
    var s := [c] + r;
    forall i | 1 <= i < |s| ensures !EntityAt(s[i..]) {
      assert s[i..] == r[i - 1..];
    }
  }

  /** A match at the start of a prefix is a match at the start of the whole. */
  lemma EntityAtExtends(p: string, q: string)
    requires |p| <= |q| && p == q[..|p|] && EntityAt(p)
    ensures EntityAt(q)
  {
    var k :| 2 <= k < |p| && p[k] == ';';
    assert q[k] == ';';
    assert q[2..][k - 2] == ';';
  }

  lemma NoEntitySlice(s: string, a: nat, b: nat)
    requires NoEntity(s) && a <= b <= |s|
    ensures NoEntity(s[a..b])
  {
    var t := s[a..b];
    forall i | 0 <= i < |t| ensures !EntityAt(t[i..]) {
      if EntityAt(t[i..]) {
        EntityAtExtends(t[i..], s[a + i..]);
        assert false;
      }
    }
  }

  /** After a kept character `s[0]` that starts no match, the copy of the
      rest cannot complete a match with it. */
  lemma KeptStartsNoEntity(s: string, rest: string)
    requires s != [] && !EntityAt(s)
    requires |rest| <= |s| - 1
    requires forall c :: c in rest ==> c in s[1..] || c == ' '
    requires |s| > 1 && s[1] != '&' ==> rest != [] && rest[0] == s[1]
    ensures !EntityAt([s[0]] + rest)
  {
    var r := [s[0]] + rest;
    if s[0] == '&' && |s| >= 2 {
      if s[1] == ';' {
        assert r[1] == ';';
      } else {
        assert ';' !in s[1..] by {
          forall k | 0 <= k < |s| - 1 ensures s[1..][k] != ';' {
            if k > 0 { assert s[1..][k] == s[2..][k - 1]; }
          }
        }
        forall k | 2 <= k < |r| ensures r[k] != ';' {
          assert r[k] == rest[k - 1] && rest[k - 1] in rest;
        }
      }
    }
  }

  /** `.replace(/&[^;]+;/g, ' ')`: every match becomes one space. */
  function ReplaceEntities(s: string): (r: string)
    ensures |r| <= |s|
    ensures forall c :: c in r ==> c in s || c == ' '
    ensures s != [] && s[0] != '&' ==> r != [] && r[0] == s[0]
    ensures NoEntity(r)
    decreases |s|
  {
    if s == [] then []
    else if EntityAt(s) then
      var rest := ReplaceEntities(s[IndexOf(s, ';') + 1..]);
      NoEntityCons(' ', rest);
      [' '] + rest
    else
      var rest := ReplaceEntities(s[1..]);
      KeptStartsNoEntity(s, rest);
      NoEntityCons(s[0], rest);
      [s[0]] + rest
  }

  /** A text that starts with one entity match: the match becomes a space. */
  lemma EntityFirst(m: string, q: string)
    requires |m| >= 3 && m[0] == '&' && m[1] != ';' && m[|m| - 1] == ';' && ';' !in m[..|m| - 1]
    ensures ReplaceEntities(m + q) == [' '] + ReplaceEntities(q)
  {
    var s := m + q;
    assert s[..|m| - 1] == m[..|m| - 1] && s[|m| - 1] == ';';
    assert s[2..][|m| - 3] == ';';
    assert IndexOf(s, ';') == |m| - 1;
    assert s[|m|..] == q;
  }

  /** A first character that starts no entity match is kept. */
  lemma EntityKept(s: string)
    requires s != [] && (s[0] != '&' || (|s| >= 2 && s[1] == ';'))
    ensures ReplaceEntities(s) == [s[0]] + ReplaceEntities(s[1..])
  {
    assert !EntityAt(s);
  }

  /** Every `&` of the text is followed by a `;`, so no entity match starts in it. */
  predicate AmpersandsClosed(p: string)
  {
    forall i :: 0 <= i < |p| && p[i] == '&' ==> i + 1 < |p| && p[i + 1] == ';'
  }

  /** An entity match becomes exactly one space, and the text before it
      and the entity pass of the text after it are kept, when that text
      starts no match itself: each of its `&` is followed by a `;`. */
  lemma {:induction false} EntityDecomp(p: string, m: string, q: string)
    requires AmpersandsClosed(p)
    requires |m| >= 3 && m[0] == '&' && m[1] != ';' && m[|m| - 1] == ';' && ';' !in m[..|m| - 1]
    ensures ReplaceEntities(p + m + q) == p + " " + ReplaceEntities(q)
    decreases |p|
  {
    if p == [] {
      assert p + m + q == m + q;
      EntityFirst(m, q);
    } else {
      var s, rest := p + m + q, p[1..];
      assert s[0] == p[0] && (p[0] == '&' ==> p[1] == ';' && s[1] == ';');
      EntityKept(s);
      assert s[1..] == rest + m + q;
      AmpersandsClosedTail(p);
      EntityDecomp(rest, m, q);
      assert ReplaceEntities(s) == [p[0]] + (rest + " " + ReplaceEntities(q));
      assert p == [p[0]] + rest;
    }
  }

  /** The tail of such a text is such a text. */
  lemma AmpersandsClosedTail(p: string)
    requires p != [] && AmpersandsClosed(p)
    ensures AmpersandsClosed(p[1..])
  {
    forall i | 0 <= i < |p| - 1 && p[1..][i] == '&' ensures i + 1 < |p| - 1 && p[1..][i + 1] == ';' {
      assert p[i + 1] == '&';
    }
  }

  /** A text with no entity match goes through the entity pass unchanged. */
  lemma {:induction false} ReplaceEntitiesNoop(s: string)
    requires NoEntity(s)
    ensures ReplaceEntities(s) == s
    decreases |s|
  {
    if s != [] {
      assert !EntityAt(s[0..]);
      assert s[0..] == s;
      NoEntitySlice(s, 1, |s|);
      ReplaceEntitiesNoop(s[1..]);
    }
  }

  /** The entity pass only deletes characters and inserts spaces, so it
      creates no tag match. */
  lemma {:induction false} ReplaceEntitiesKeepsNoTag(s: string)
    requires NoTag(s)
    ensures NoTag(ReplaceEntities(s))
    decreases |s|
  {
    if s != [] {
      if EntityAt(s) {
        var k := IndexOf(s, ';');
        NoTagSlice(s, k + 1, |s|);
        ReplaceEntitiesKeepsNoTag(s[k + 1..]);
        NoTagCons(' ', ReplaceEntities(s[k + 1..]));
      } else {
        var rest := ReplaceEntities(s[1..]);
        NoTagSlice(s, 1, |s|);
        ReplaceEntitiesKeepsNoTag(s[1..]);
        if s[0] == '<' {
          NoTagHead(s);
        }
        NoTagCons(s[0], rest);
      }
    }
  }

  // ------------------------------------------------------------- stripHtml

  /** `stripHtml`: tags removed, entities turned into spaces, then trimmed.
      The result has no whitespace at either end and no match of either
      pattern left in it. */
  function StripHtml(html: string): (text: string)
    ensures IsTrimmed(text)
    ensures NoTag(text) && NoEntity(text)
  {
    var untagged := StripTags(html);
    var spaced := ReplaceEntities(untagged);
    ReplaceEntitiesKeepsNoTag(untagged);
    TrimKeepsNoMatch(spaced);
    Trim(spaced)
  }

  /** Trimming takes a substring, so it creates no match of either pattern. */
  lemma TrimKeepsNoMatch(s: string)
    requires NoTag(s) && NoEntity(s)
    ensures NoTag(Trim(s)) && NoEntity(Trim(s))
  {
    if Trim(s) != [] {
      NoTagSlice(s, SpaceEnd(s, 0), SpaceStart(s, |s|));
      NoEntitySlice(s, SpaceEnd(s, 0), SpaceStart(s, |s|));
    }
  }

  /** Stripping a stripped text changes nothing. */
  lemma StripHtmlIdempotent(html: string)
    ensures StripHtml(StripHtml(html)) == StripHtml(html)
  {
    var text := StripHtml(html);
    StripTagsNoop(text);
    ReplaceEntitiesNoop(text);
    TrimOfTrimmed(text);
  }

  /** A text with no `<` and no `&` is only trimmed. */
  lemma PlainTextOnlyTrimmed(s: string)
    requires '<' !in s && '&' !in s
    ensures StripHtml(s) == Trim(s)
  {
    assert forall i :: 0 <= i < |s| ==> s[i] != '<' && s[i] != '&';
    StripTagsNoop(s);
    ReplaceEntitiesNoop(s);
  }

  // ----------------------------------------------------------- truncation

  const DefaultMaxLength: nat := 150
  const Ellipsis: string := "..."

  /** `truncateText(text, maxLength)`: the text itself when it is at most
      `maxLength` long, otherwise its first `maxLength` characters and an
      ellipsis. */
  function TruncateText(text: string, maxLength: nat): (r: string)
    ensures |text| <= maxLength ==> r == text
    ensures |text| > maxLength ==>
      |r| == maxLength + |Ellipsis| && r[..maxLength] == text[..maxLength] && r[maxLength..] == Ellipsis
    ensures |r| <= maxLength + |Ellipsis|
  {
    if |text| <= maxLength then text else text[..maxLength] + Ellipsis
  }

  /** The excerpt of a post: `truncateText(stripHtml(excerpt))`. It is cut
      after stripping, so it is at most 153 characters long, starts like
      the stripped text and contains no tag match. */
  function Excerpt(html: string): (r: string)
    ensures |r| <= DefaultMaxLength + 3
    ensures var text := StripHtml(html);
      var n := if |text| <= DefaultMaxLength then |text| else DefaultMaxLength;
      n <= |r| && r[..n] == text[..n]
    ensures NoTag(r)
  {
    var text := StripHtml(html);
    var r := TruncateText(text, DefaultMaxLength);
    assert NoTag(r) by {
      if |text| > DefaultMaxLength {
        var kept := text[..DefaultMaxLength];
        NoTagSlice(text, 0, DefaultMaxLength);
        assert r == kept + Ellipsis;
        forall i | 0 <= i < |r| && r[i] == '<' ensures '>' !in r[i + 1..] {
          assert i < DefaultMaxLength && r[i] == kept[i];
          assert r[i + 1..] == kept[i + 1..] + Ellipsis;
        }
      }
    }
    r
  }
}
