/** The card number shown on the profile (components/Profile.tsx), written
    in blocks of four: `cardNumber.match(/.{1,4}/g)?.join(' ')`. */
module Profile {
  import opened Wrappers
  import opened JsString

  /** The characters `.` does not match in a JavaScript regular expression. */
  predicate IsLineTerminator(c: char) {
    c == '\n' || c == '\r' || c == '\U{2028}' || c == '\U{2029}'
  }

  predicate NoLineTerminator(s: string) {
    forall i :: 0 <= i < |s| ==> !IsLineTerminator(s[i])
  }

  /** `s` without its line terminators: text with none comes back as it is,
      and a lone line terminator vanishes. */
  function StripLineTerminators(s: string): (r: string)
    ensures NoLineTerminator(r)
    ensures |r| <= |s|
    ensures NoLineTerminator(s) ==> r == s
    ensures |s| == 1 && IsLineTerminator(s[0]) ==> r == ""
    decreases |s|
  {
    if s == [] then ""
    else if IsLineTerminator(s[0]) then StripLineTerminators(s[1..])
    else [s[0]] + StripLineTerminators(s[1..])
  }

  /** Length of the leading run, at most `max` long, of characters `.`
      matches: `.{1,max}` matches greedily. */
  function LeadingRun(s: string, max: nat): (n: nat)
    ensures n <= max && n <= |s|
    ensures NoLineTerminator(s[..n])
    ensures n < max && n < |s| ==> IsLineTerminator(s[n])
    decreases max
  {
    if max == 0 || s == [] || IsLineTerminator(s[0]) then 0
    else
      var m := LeadingRun(s[1..], max - 1);
      assert s[..m + 1] == [s[0]] + s[1..][..m];
      1 + m
  }

  /** The matches of `/.{1,4}/g` in `s`, left to right: where no match can
      start (at a line terminator) the search moves one character on, and
      elsewhere it takes up to four characters. Every match has one to four
      characters, none of them a line terminator. */
  function CardGroups(s: string): (groups: seq<string>)
    ensures forall k :: 0 <= k < |groups| ==> 1 <= |groups[k]| <= 4 && NoLineTerminator(groups[k])
    decreases |s|
  {
    if s == [] then []
    else if IsLineTerminator(s[0]) then CardGroups(s[1..])
    else
      var n := LeadingRun(s, 4);
      [s[..n]] + CardGroups(s[n..])
  }

  /** The text shown: the groups joined by single spaces, or nothing
      (`undefined`) when `match` found no group and returned null. Nothing
      is shown exactly when the card has no character `.` matches; otherwise
      the text is those characters with one space between each two groups. */
  function GroupedCard(card: string): (shown: Option<string>)
    ensures shown.None? <==> StripLineTerminators(card) == ""
    ensures shown.Some? ==> |shown.value| == |StripLineTerminators(card)| + |CardGroups(card)| - 1
  {
    var groups := CardGroups(card);
    GroupsCoverCard(card);
    if groups == [] then None
    else
      JoinLength(groups, " ");
      Some(Join(groups, " "))
  }

  lemma {:induction false} StripAppend(a: string, b: string)
    ensures StripLineTerminators(a + b) == StripLineTerminators(a) + StripLineTerminators(b)
    decreases |a|
  {
    if a != [] {
      StripAppend(a[1..], b);
      assert (a + b)[0] == a[0] && (a + b)[1..] == a[1..] + b;
      assert a + b != [];
      if IsLineTerminator(a[0]) {
        assert StripLineTerminators(a + b) == StripLineTerminators(a[1..] + b);
        assert StripLineTerminators(a) == StripLineTerminators(a[1..]);
      } else {
        calc {
          StripLineTerminators(a + b);
          [a[0]] + StripLineTerminators(a[1..] + b);
          [a[0]] + (StripLineTerminators(a[1..]) + StripLineTerminators(b));
          ([a[0]] + StripLineTerminators(a[1..])) + StripLineTerminators(b);
          StripLineTerminators(a) + StripLineTerminators(b);
        }
      }
    } else {
      assert a + b == b;
    }
  }

  /** The groups laid end to end are the card number without its line
      terminators: grouping loses nothing else and adds nothing. */
  lemma {:induction false} GroupsCoverCard(s: string)
    ensures Concat(CardGroups(s)) == StripLineTerminators(s)
    decreases |s|
  {
    if s != [] {
      if IsLineTerminator(s[0]) {
        GroupsCoverCard(s[1..]);
      } else {
        var n := LeadingRun(s, 4);
        GroupsCoverCard(s[n..]);
        var groups := CardGroups(s);
        assert groups == [s[..n]] + CardGroups(s[n..]);
        assert groups[1..] == CardGroups(s[n..]);
        assert s == s[..n] + s[n..];
        StripAppend(s[..n], s[n..]);
      }
    }
  }

  /** For a card number without line terminators: the groups concatenate
      back to it, there are ceil(|s| / 4) of them, and all but the last
      have exactly four characters. */
  lemma {:induction false} PlainCardGroups(s: string)
    requires NoLineTerminator(s)
    ensures Concat(CardGroups(s)) == s
    ensures |CardGroups(s)| == (|s| + 3) / 4
    ensures forall k :: 0 <= k < |CardGroups(s)| - 1 ==> |CardGroups(s)[k]| == 4
    decreases |s|
  {
    GroupsCoverCard(s);
    if s != [] {
      var n := LeadingRun(s, 4);
      assert n == if |s| < 4 then |s| else 4;
      assert NoLineTerminator(s[n..]);
      PlainCardGroups(s[n..]);
      var groups := CardGroups(s);
      assert groups == [s[..n]] + CardGroups(s[n..]);
    }
  }

  /** The shown text of a non-empty card number without line terminators
      is |s| + ceil(|s| / 4) - 1 characters long. */
  lemma GroupedCardLength(s: string)
    requires s != [] && NoLineTerminator(s)
    ensures GroupedCard(s).Some?
    ensures |GroupedCard(s).value| == |s| + (|s| + 3) / 4 - 1
  {
    PlainCardGroups(s);
    JoinLength(CardGroups(s), " ");
  }

  /** Splitting the shown text at its spaces and concatenating the parts
      gives back the card number, when the number has no spaces or line
      terminators of its own. */
  lemma UngroupCard(s: string)
    requires s != [] && NoLineTerminator(s) && ' ' !in s
    ensures GroupedCard(s).Some?
    ensures Split(GroupedCard(s).value, ' ') == CardGroups(s)
    ensures Concat(Split(GroupedCard(s).value, ' ')) == s
  {
    PlainCardGroups(s);
    AbsentFromConcat(CardGroups(s), ' ');
    JoinThenSplit(CardGroups(s), ' ');
  }

  lemma {:induction false} AbsentFromConcat(parts: seq<string>, c: char)
    requires c !in Concat(parts)
    ensures forall k :: 0 <= k < |parts| ==> c !in parts[k]
    decreases |parts|
  {
    if parts != [] {
      assert Concat(parts) == parts[0] + Concat(parts[1..]);
      AbsentFromConcat(parts[1..], c);
      forall k | 1 <= k < |parts| ensures c !in parts[k] {
        assert parts[k] == parts[1..][k - 1];
      }
    }
  }

  /** Four characters that `.` matches form a group of their own. */
  lemma FullFirstGroup(g: string, rest: string)
    requires |g| == 4 && NoLineTerminator(g)
    ensures CardGroups(g + rest) == [g] + CardGroups(rest)
  {
    var s := g + rest;
    assert s[..4] == g && s[4..] == rest;
    assert NoLineTerminator(s[..4]);
    assert LeadingRun(s, 4) == 4;
  }

  /** Sixteen characters that `.` matches form four full groups. */
  lemma FourFullGroups(a: string, b: string, c: string, d: string)
    requires |a| == |b| == |c| == |d| == 4
    requires NoLineTerminator(a) && NoLineTerminator(b) && NoLineTerminator(c) && NoLineTerminator(d)
    ensures CardGroups(a + (b + (c + (d + [])))) == [a, b, c, d]
  {
    FullFirstGroup(d, []);
    FullFirstGroup(c, d + []);
    FullFirstGroup(b, c + (d + []));
    FullFirstGroup(a, b + (c + (d + [])));
  }

  /** A card with at least one group shows the groups joined by spaces. */
  lemma ShownIsJoin(card: string, groups: seq<string>)
    requires CardGroups(card) == groups && groups != []
    ensures GroupedCard(card) == Some(Join(groups, " "))
  {
  }

  /** Sixteen characters that `.` matches are shown as four blocks of
      four, one space between each two. */
  lemma FourGroupsShown(a: string, b: string, c: string, d: string)
    requires |a| == |b| == |c| == |d| == 4
    requires NoLineTerminator(a) && NoLineTerminator(b) && NoLineTerminator(c) && NoLineTerminator(d)
    ensures GroupedCard(a + b + c + d) == Some(a + " " + b + " " + c + " " + d)
  {
    FourFullGroups(a, b, c, d);
    assert a + (b + (c + (d + []))) == a + b + c + d;
    ShownIsJoin(a + b + c + d, [a, b, c, d]);
    JoinFour(a, b, c, d);
  }

  lemma JoinFour(a: string, b: string, c: string, d: string)
    ensures Join([a, b, c, d], " ") == a + " " + b + " " + c + " " + d
  {
    calc {
      Join([a, b, c, d], " ");
      { JoinCons([a, b, c, d], " "); assert [a, b, c, d][1..] == [b, c, d]; }
      a + " " + Join([b, c, d], " ");
      { JoinCons([b, c, d], " "); assert [b, c, d][1..] == [c, d]; }
      a + " " + (b + " " + Join([c, d], " "));
      { JoinCons([c, d], " "); assert [c, d][1..] == [d]; }
      a + " " + (b + " " + (c + " " + d));
      a + " " + b + " " + c + " " + d;
    }
  }

  /** The demo patient's card (App.tsx), "0032998877665544", is shown as
      four blocks. */
  lemma DemoCardGrouping(card: string)
    requires card == "0032" + "9988" + "7766" + "5544"
    ensures GroupedCard(card) == Some("0032" + " " + "9988" + " " + "7766" + " " + "5544")
  {
    FourGroupsShown("0032", "9988", "7766", "5544");
  }
}
