/**
 * Comma-separated lists typed into a text field: the wizards' id lists and
 * the settings page's default tags are sent as arrays by splitting on ','
 * and trimming each piece; the tags are shown joined with ", ".
 */
module CommaLists {
  import opened Text

  /**
   * `s ? s.split(',').map((x) => x.trim()) : []`: the empty string gives an
   * empty list; any other string gives one trimmed piece per comma-separated
   * part, empty pieces and repeats included.
   */
  function ParseList(s: string): (r: seq<string>)
    ensures s == [] ==> r == []
    ensures s != [] ==> |r| == CountChar(s, ',') + 1
    ensures forall k | 0 <= k < |r| :: IsTrimmed(r[k]) && ',' !in r[k]
  {
    if s == [] then []
    else
      var pieces := SplitOn(s, ',');
      var r := TrimAll(pieces);
      forall k | 0 <= k < |r|
        ensures ',' !in r[k]
      {
        TrimKeepsOut(pieces[k], ',');
      }
      r
  }

  /** Trimming only removes characters. */
  lemma TrimKeepsOut(s: string, c: char)
    requires c !in s
    ensures c !in Trim(s)
  {
    var t := TrimStart(s);
    assert forall k | 0 <= k < |t| :: t[k] == s[|s| - |t| + k];
    var r := TrimEnd(t);
    assert forall k | 0 <= k < |r| :: r[k] == t[k];
  }

  /** A non-empty string of blanks without commas is one empty piece, not none. */
  lemma BlankGivesOneEmptyPiece(s: string)
    requires s != [] && AllSpace(s) && ',' !in s
    ensures ParseList(s) == [""]
  {
    SplitNoSep(s, ',');
  }

  /** One step of `SplitOn`, for unfolding literals. */
  lemma SplitStep(c: char, t: string, sep: char)
    ensures SplitOn([c] + t, sep) == if c == sep then [[]] + SplitOn(t, sep) else [[c] + SplitOn(t, sep)[0]] + SplitOn(t, sep)[1..]
  {
    assert ([c] + t)[1..] == t;
  }

  /** Empty pieces and repeated ids are kept. */
  lemma KeepsEmptyAndRepeats()
    ensures ParseList("a,,a") == ["a", "", "a"]
  {
    assert "a" == ['a'] + "";
    SplitStep('a', "", ',');
    assert ",a" == [','] + "a";
    SplitStep(',', "a", ',');
    assert ",,a" == [','] + ",a";
    SplitStep(',', ",a", ',');
    assert "a,,a" == ['a'] + ",,a";
    SplitStep('a', ",,a", ',');
    assert SplitOn("a,,a", ',') == ["a", "", "a"];
    assert Trim("a") == "a";
  }

  /** Splitting at the first separator. */
  lemma {:induction false} SplitAtFirst(a: string, b: string, sep: char)
    requires sep !in a
    ensures SplitOn(a + [sep] + b, sep) == [a] + SplitOn(b, sep)
  {
    if a == [] {
      SplitStep(sep, b, sep);
      assert a + [sep] + b == [sep] + b;
    } else {
      SplitAtFirst(a[1..], b, sep);
      assert a + [sep] + b == [a[0]] + (a[1..] + [sep] + b);
      SplitStep(a[0], a[1..] + [sep] + b, sep);
      assert [a[0]] + a[1..] == a;
    }
  }

  /** A space put in front of the first piece disappears when the pieces are trimmed. */
  lemma TrimSpacedHead(p: seq<string>)
    requires p != []
    ensures TrimAll([[' '] + p[0]] + p[1..]) == TrimAll(p)
  {
    var q := [[' '] + p[0]] + p[1..];
    assert q[0] == [' '] + p[0] && q[1..] == p[1..];
    TrimLeadingSpace(p[0]);
    TrimAllCons(q);
    TrimAllCons(p);
  }

  lemma JoinStep(xs: seq<string>)
    requires |xs| >= 2
    ensures JoinWith(xs, ", ") == xs[0] + [','] + ([' '] + JoinWith(xs[1..], ", "))
  {
  }

  /** Trimming the pieces of a ", "-joined list trims the elements. */
  lemma {:induction false} SplitJoinTrims(xs: seq<string>)
    requires xs != []
    requires forall k | 0 <= k < |xs| :: ',' !in xs[k]
    ensures TrimAll(SplitOn(JoinWith(xs, ", "), ',')) == TrimAll(xs)
    decreases |xs|
  {
    if |xs| == 1 {
      SplitNoSep(xs[0], ',');
    } else {
      var x, rest := xs[0], JoinWith(xs[1..], ", ");
      SplitJoinTrims(xs[1..]);
      JoinStep(xs);
      SplitAtFirst(x, [' '] + rest, ',');
      SplitStep(' ', rest, ',');
      var p := SplitOn(rest, ',');
      TrimSpacedHead(p);
      var tail := SplitOn([' '] + rest, ',');
      assert TrimAll(tail) == TrimAll(xs[1..]);
      TrimAllCons([x] + tail);
      assert ([x] + tail)[1..] == tail;
      calc {
        TrimAll(SplitOn(JoinWith(xs, ", "), ','));
        TrimAll([x] + tail);
        [Trim(x)] + TrimAll(tail);
        [Trim(x)] + TrimAll(xs[1..]);
        TrimAll(xs);
      }
    }
  }

  lemma TrimAllCons(xs: seq<string>)
    requires xs != []
    ensures TrimAll(xs) == [Trim(xs[0])] + TrimAll(xs[1..])
  {
  }

  /** Trimmed elements are left as they are. */
  lemma TrimAllTrimmed(xs: seq<string>)
    requires forall k | 0 <= k < |xs| :: IsTrimmed(xs[k])
    ensures TrimAll(xs) == xs
  {
    forall k | 0 <= k < |xs|
      ensures TrimAll(xs)[k] == xs[k]
    {
      TrimTrimmed(xs[k]);
    }
  }

  /** The settings page shows the tag list as `tags.join(', ')`. */
  function JoinTags(tags: seq<string>): string {
    JoinWith(tags, ", ")
  }

  /**
   * Showing a tag list and saving it back gives the same list, for any list
   * other than [""] whose tags hold no comma and no outer whitespace.
   */
  lemma JoinThenParse(tags: seq<string>)
    requires tags != [""]
    requires forall k | 0 <= k < |tags| :: ',' !in tags[k] && IsTrimmed(tags[k])
    ensures ParseList(JoinTags(tags)) == tags
  {
    if tags != [] {
      if |tags| == 1 {
        assert JoinTags(tags) == tags[0];
      } else {
        assert JoinTags(tags) == tags[0] + ", " + JoinWith(tags[1..], ", ");
      }
      SplitJoinTrims(tags);
      TrimAllTrimmed(tags);
    }
  }

  /** The excluded list [""] comes back empty. */
  lemma EmptyTagIsLost()
    ensures ParseList(JoinTags([""])) == []
  {
  }
}
