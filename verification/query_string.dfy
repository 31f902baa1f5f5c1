/**
 * A query parameter on its way from a URL the page builds by interpolation,
 * without encoding, to the value Django's `QueryDict.get` returns. The URL
 * standard's parser trims the URL's trailing controls and spaces, removes
 * tabs and line breaks and ends the query at '#'; Django splits the rest at
 * '&', each pair at its first '=', reads '+' as a space and keeps the last
 * value given for a name.
 */
module QueryString {
  import opened Wrappers
  import opened Strings

  /** The C0 controls and the space, which the URL parser trims from the end of the URL. */
  predicate ControlOrSpace(c: char) {
    c <= ' '
  }

  /** Tab, line feed and carriage return, which the URL parser removes everywhere. */
  predicate TabOrNewline(c: char) {
    c == '\t' || c == '\n' || c == '\r'
  }

  /** `s` without its trailing controls and spaces. */
  function TrimTrailing(s: string): (r: string)
    ensures |r| <= |s| && r == s[..|r|]
    ensures forall i | |r| <= i < |s| :: ControlOrSpace(s[i])
    ensures r == [] || !ControlOrSpace(r[|r| - 1])
  {
    if |s| > 0 && ControlOrSpace(s[|s| - 1]) then TrimTrailing(s[..|s| - 1]) else s
  }

  /** `s` without its tabs and line breaks, the other characters in order. */
  function DropBreaks(s: string): (r: string)
    ensures |r| <= |s|
    ensures forall i | 0 <= i < |r| :: !TabOrNewline(r[i])
    ensures (forall i | 0 <= i < |s| :: !TabOrNewline(s[i])) ==> r == s
  {
    if s == "" then ""
    else
      var rest := DropBreaks(s[1..]);
      assert s == [s[0]] + s[1..];
      if TabOrNewline(s[0]) then rest else [s[0]] + rest
  }

  /** The part of `s` before the first `c`, or all of it. */
  function Before(s: string, c: char): (r: string)
    ensures c !in r
    ensures |r| <= |s| && r == s[..|r|]
    ensures c !in s ==> r == s
  {
    if c in s then s[..FirstIndex(s, c)] else s
  }

  /**
   * What is left of the text interpolated at the end of a URL's query once
   * the URL is parsed: trailing controls and spaces trimmed, tabs and line
   * breaks removed, and nothing from '#' on.
   */
  function QueryPart(text: string): (r: string)
    ensures '#' !in r && |r| <= |text|
    ensures forall i | 0 <= i < |r| :: !TabOrNewline(r[i])
  {
    Before(DropBreaks(TrimTrailing(text)), '#')
  }

  /** `application/x-www-form-urlencoded` reads '+' as a space. */
  function PlusAsSpace(s: string): (r: string)
    ensures |r| == |s|
    ensures forall i | 0 <= i < |s| :: r[i] == if s[i] == '+' then ' ' else s[i]
    ensures '+' !in s ==> r == s
  {
    seq(|s|, i requires 0 <= i < |s| => if s[i] == '+' then ' ' else s[i])
  }

  /** A pair's name: the text before its first '=', or the whole pair. */
  function PairName(pair: string): string {
    PlusAsSpace(Before(pair, '='))
  }

  /** A pair's value: the text after its first '=', or empty. */
  function PairValue(pair: string): string {
    if '=' in pair then PlusAsSpace(pair[FirstIndex(pair, '=') + 1..]) else ""
  }

  /** `QueryDict.get(name)`: the value of the last pair with that name. */
  function LastValue(pairs: seq<string>, name: string): (r: Option<string>)
    ensures r.None? <==> forall k | 0 <= k < |pairs| :: PairName(pairs[k]) != name
    ensures r.Some? ==> exists k | 0 <= k < |pairs| :: PairName(pairs[k]) == name && r.value == PairValue(pairs[k])
  {
    if pairs == [] then None
    else
      var last := pairs[|pairs| - 1];
      if PairName(last) == name then Some(PairValue(last))
      else
        var r := LastValue(pairs[..|pairs| - 1], name);
        assert forall k | 0 <= k < |pairs| - 1 :: pairs[..|pairs| - 1][k] == pairs[k];
        r
  }

  /** `request.query_params.get(name, '')` for the query `text`. */
  function Received(text: string, name: string): string {
    var v := LastValue(Split(text, '&'), name);
    if v.Some? then v.value else ""
  }

  /**
   * The `q` the search view reads when the page requests `?q=` followed by
   * the typed text.
   */
  function ReceivedQ(query: string): string {
    Received("q=" + QueryPart(query), "q")
  }

  /**
   * Text free of the characters the URL and the form encoding treat
   * specially: '#', '&', '+', '%' (which starts an escape Django decodes),
   * tabs and line breaks, and not ending in a control or space.
   */
  predicate Plain(query: string) {
    && (forall i | 0 <= i < |query| ::
          query[i] != '#' && query[i] != '&' && query[i] != '+' && query[i] != '%' && !TabOrNewline(query[i]))
    && (query == "" || !ControlOrSpace(query[|query| - 1]))
  }

  /** Text the URL parser leaves alone: no '#', tab or line break, no trailing control or space. */
  predicate Unparsed(text: string) {
    && (forall i | 0 <= i < |text| :: text[i] != '#' && !TabOrNewline(text[i]))
    && (text == "" || !ControlOrSpace(text[|text| - 1]))
  }

  lemma UnparsedKept(text: string)
    requires Unparsed(text)
    ensures QueryPart(text) == text
  {
    assert TrimTrailing(text) == text;
    assert '#' !in text;
  }

  /** The page's own pair holds no '&' unless the text does. */
  lemma NoAmpersand(text: string)
    requires '&' !in text
    ensures '&' !in "q=" + text
  {
    var pair := "q=" + text;
    assert forall i | 2 <= i < |pair| :: pair[i] == text[i - 2];
  }

  lemma Regroup(a: string, h: string, t: string)
    ensures a + (h + "&" + t) == a + h + "&" + t
  {
  }

  /** Pairs the page itself writes hold no '&'. */
  lemma OnePair(query: string)
    requires '&' !in query
    ensures Split("q=" + query, '&') == ["q=" + query]
  {
    NoAmpersand(query);
  }

  /** A plain query reaches the view as typed. */
  lemma PlainArrives(query: string)
    requires Plain(query)
    ensures ReceivedQ(query) == query
  {
    UnparsedKept(query);
    assert '&' !in query;
    OnePair(query);
    FirstPairIsQ(query);
  }

  /** The pair the page itself writes is named `q` and holds the text after "q=". */
  lemma FirstPairIsQ(rest: string)
    ensures PairName("q=" + rest) == "q"
    ensures PairValue("q=" + rest) == PlusAsSpace(rest)
  {
    var pair := "q=" + rest;
    assert pair[0] == 'q' && pair[1] == '=';
    assert FirstIndex(pair, '=') == 1;
    assert pair[..1] == "q";
    assert pair[2..] == rest;
  }

  /** An '&' ends the value: the rest becomes a pair of its own, here one not named `q`. */
  lemma AmpersandCuts(head: string, tail: string)
    requires Plain(head) && Plain(tail) && '=' !in tail && tail != "q"
    ensures ReceivedQ(head + "&" + tail) == head
  {
    AmpersandKept(head, tail);
    PlainFree(head);
    PlainFree(tail);
    AmpersandPairs(head, tail);
    NotNamedQ(tail);
    FirstPairIsQ(head);
    LastOfTwo("q=" + head, tail, "q");
    PlainValue(head);
  }

  lemma AmpersandKept(head: string, tail: string)
    requires Plain(head) && Plain(tail)
    ensures QueryPart(head + "&" + tail) == head + "&" + tail
  {
    AmpersandUnparsed(head, tail);
    UnparsedKept(head + "&" + tail);
  }

  lemma AmpersandPairs(head: string, tail: string)
    requires '&' !in head && '&' !in tail
    ensures Split("q=" + (head + "&" + tail), '&') == ["q=" + head, tail]
  {
    NoAmpersand(head);
    Regroup("q=", head, tail);
    SplitCons("q=" + head, tail, '&');
  }

  /** A plain text holds none of the characters that end or rewrite a value. */
  lemma PlainFree(s: string)
    requires Plain(s)
    ensures '#' !in s && '&' !in s && '+' !in s
  {
  }

  lemma NotNamedQ(tail: string)
    requires '=' !in tail && '+' !in tail && tail != "q"
    ensures PairName(tail) != "q"
  {
    assert Before(tail, '=') == tail;
  }

  lemma PlainValue(s: string)
    requires Plain(s)
    ensures PlusAsSpace(s) == s
  {
    assert '+' !in s;
  }

  /** The later pair wins when it has the name; otherwise the earlier one decides. */
  lemma LastOfTwo(a: string, b: string, name: string)
    ensures LastValue([a, b], name)
      == if PairName(b) == name then Some(PairValue(b))
         else if PairName(a) == name then Some(PairValue(a))
         else None
  {
    assert [a, b][..1] == [a];
    assert [a][..0] == [];
  }

  lemma AmpersandUnparsed(head: string, tail: string)
    requires Plain(head) && Plain(tail)
    ensures Unparsed(head + "&" + tail)
  {
    var query := head + "&" + tail;
    forall i | 0 <= i < |query| ensures query[i] != '#' && !TabOrNewline(query[i]) {
      if i < |head| { assert query[i] == head[i]; }
      else if i > |head| { assert query[i] == tail[i - |head| - 1]; }
    }
    if tail != "" {
      assert query[|query| - 1] == tail[|tail| - 1];
    }
  }

  /** A '#' starts the fragment: nothing after it is sent. */
  lemma HashCuts(head: string, tail: string)
    requires Plain(head)
    requires tail == "" || !ControlOrSpace(tail[|tail| - 1])
    requires forall i | 0 <= i < |tail| :: !TabOrNewline(tail[i])
    ensures ReceivedQ(head + "#" + tail) == head
  {
    assert QueryPart(head + "#" + tail) == head by {
      FragmentDropped(head, tail);
    }
    assert Split("q=" + head, '&') == ["q=" + head] by {
      assert '&' !in head;
      OnePair(head);
    }
    FirstPairIsQ(head);
  }

  lemma FragmentDropped(head: string, tail: string)
    requires Plain(head)
    requires tail == "" || !ControlOrSpace(tail[|tail| - 1])
    requires forall i | 0 <= i < |tail| :: !TabOrNewline(tail[i])
    ensures QueryPart(head + "#" + tail) == head
  {
    assert forall i | 0 <= i < |head| :: !TabOrNewline(head[i]);
    FragmentUnbroken(head, tail);
    PlainFree(head);
    FirstAfter(head, '#', tail);
    assert (head + "#" + tail)[..|head|] == head;
  }

  lemma FragmentUnbroken(head: string, tail: string)
    requires forall i | 0 <= i < |head| :: !TabOrNewline(head[i])
    requires tail == "" || !ControlOrSpace(tail[|tail| - 1])
    requires forall i | 0 <= i < |tail| :: !TabOrNewline(tail[i])
    ensures DropBreaks(TrimTrailing(head + "#" + tail)) == head + "#" + tail
  {
    Unbroken(head, '#', tail);
    Untrimmed(head, '#', tail);
  }

  /** Nothing trails a text that ends in neither a control nor a space. */
  lemma Untrimmed(a: string, c: char, b: string)
    requires !ControlOrSpace(c)
    requires b == "" || !ControlOrSpace(b[|b| - 1])
    ensures TrimTrailing(a + [c] + b) == a + [c] + b
  {
    var s := a + [c] + b;
    if b != "" {
      assert s[|s| - 1] == b[|b| - 1];
    }
  }

  /** Joining texts free of tabs and line breaks at another such character. */
  lemma Unbroken(a: string, c: char, b: string)
    requires forall i | 0 <= i < |a| :: !TabOrNewline(a[i])
    requires forall i | 0 <= i < |b| :: !TabOrNewline(b[i])
    requires !TabOrNewline(c)
    ensures forall i | 0 <= i < |a + [c] + b| :: !TabOrNewline((a + [c] + b)[i])
  {
    var s := a + [c] + b;
    forall i | 0 <= i < |s| ensures !TabOrNewline(s[i]) {
      if i < |a| { assert s[i] == a[i]; }
      else if i > |a| { assert s[i] == b[i - |a| - 1]; }
    }
  }

  /** The first `c` of `a + [c] + b` when `a` holds none. */
  lemma FirstAfter(a: string, c: char, b: string)
    requires c !in a
    ensures FirstIndex(a + [c] + b, c) == |a|
  {
    var s := a + [c] + b;
    assert s[|a|] == c;
    assert forall j | 0 <= j < |a| :: s[j] == a[j] && a[j] != c;
  }

  /** Each '+' arrives as a space, a trailing one too, in a text without escapes. */
  lemma PlusArrivesAsSpace(query: string)
    requires forall i | 0 <= i < |query| ::
      query[i] != '#' && query[i] != '&' && query[i] != '%' && !TabOrNewline(query[i])
    requires query == "" || !ControlOrSpace(query[|query| - 1])
    ensures ReceivedQ(query) == PlusAsSpace(query)
  {
    UnparsedKept(query);
    assert '&' !in query;
    OnePair(query);
    FirstPairIsQ(query);
  }

  /** "R&D" is searched as "R": the "D" becomes a pair of its own. */
  lemma AmpersandExample()
    ensures ReceivedQ("R&D") == "R"
  {
    assert "R" + "&" + "D" == "R&D";
    AmpersandCuts("R", "D");
  }

  /** "#1" is searched as nothing at all. */
  lemma HashExample()
    ensures ReceivedQ("#1") == ""
  {
    assert "" + "#" + "1" == "#1";
    HashCuts("", "1");
  }

  /** "C++" is searched as "C" and two spaces. */
  lemma PlusExample()
    ensures ReceivedQ("C++") == "C  "
  {
    PlusExampleUnparsed();
    PlusArrivesAsSpace("C++");
    PlusExampleSpaces();
  }

  lemma PlusExampleUnparsed()
    ensures forall i | 0 <= i < |"C++"| :: "C++"[i] != '#' && "C++"[i] != '&' && !TabOrNewline("C++"[i])
    ensures !ControlOrSpace("C++"[2])
  {
  }

  lemma PlusExampleSpaces()
    ensures PlusAsSpace("C++") == "C  "
  {
    var r := PlusAsSpace("C++");
    assert |r| == 3 && r[0] == 'C' && r[1] == ' ' && r[2] == ' ';
  }
}
