/**
 * The shape of an ARK admin console command: words separated by single
 * spaces, which is how the server splits the line it receives. Builders of
 * the toolkit are related to the list of words the server reads back.
 */
module Console {
  import opened Text

  /** A word: non-empty and free of spaces. */
  predicate Word(w: string) {
    |w| > 0 && Free(w, ' ')
  }

  predicate AllWords(ws: seq<string>) {
    forall i :: 0 <= i < |ws| ==> Word(ws[i])
  }

  /** The command line made of `ws`. */
  function Line(ws: seq<string>): string {
    Join(ws, " ")
  }

  /** Splitting a line made of words on spaces gives the words back. */
  lemma ParseLine(ws: seq<string>)
    requires |ws| >= 1 && AllWords(ws)
    ensures Split(Line(ws), ' ') == ws
  {
    SplitJoin(ws, ' ');
  }

  /** Lines compose: two word lists joined by a space. */
  lemma {:induction false} LineAppend(a: seq<string>, b: seq<string>)
    requires |a| >= 1 && |b| >= 1
    ensures Line(a + b) == Line(a) + " " + Line(b)
    decreases |a|
  {
    assert (a + b)[0] == a[0];
    if |a| == 1 {
      assert (a + b)[1..] == b;
    } else {
      assert (a + b)[1..] == a[1..] + b;
      LineAppend(a[1..], b);
    }
  }

  lemma LineCons(w: string, ws: seq<string>)
    requires |ws| >= 1
    ensures Line([w] + ws) == w + " " + Line(ws)
  {
    assert ([w] + ws)[1..] == ws;
  }

  /** The text words add when appended to a line: nothing, or a space and the words. */
  function Tail(ws: seq<string>): string {
    if ws == [] then "" else " " + Line(ws)
  }

  lemma TailAppend(a: seq<string>, b: seq<string>)
    ensures Tail(a + b) == Tail(a) + Tail(b)
  {
    if a == [] {
      assert a + b == b;
      assert Tail(a) + Tail(b) == Tail(b);
    } else if b == [] {
      assert a + b == a;
      assert Tail(a) + Tail(b) == Tail(a);
    } else {
      LineAppend(a, b);
      assert " " + (Line(a) + " " + Line(b)) == (" " + Line(a)) + (" " + Line(b));
    }
  }

  /** An option: ` flag value` when it applies, else nothing. */
  function Opt(applies: bool, flag: string, value: string): string {
    if applies then " " + flag + " " + value else ""
  }

  function OptWords(applies: bool, flag: string, value: string): seq<string> {
    if applies then [flag, value] else []
  }

  lemma OptTail(applies: bool, flag: string, value: string)
    ensures Opt(applies, flag, value) == Tail(OptWords(applies, flag, value))
  {
    if applies {
      LineCons(flag, [value]);
      assert [flag] + [value] == [flag, value];
    }
  }

  /** A flag: ` flag` when it applies, else nothing. */
  function Flag(applies: bool, flag: string): string {
    if applies then " " + flag else ""
  }

  function FlagWords(applies: bool, flag: string): seq<string> {
    if applies then [flag] else []
  }

  /** The text a word in front adds to the text of the words after it. */
  lemma TailCons(w: string, ws: seq<string>)
    ensures Tail([w] + ws) == " " + w + Tail(ws)
  {
    if ws == [] {
      assert [w] + ws == [w];
    } else {
      LineCons(w, ws);
    }
  }

  /** The text five words add to a line. */
  lemma TailFive(a: string, b: string, c: string, d: string, e: string)
    ensures Tail([a, b, c, d, e]) == " " + a + " " + b + " " + c + " " + d + " " + e
  {
    var te := Tail([e]);
    TailCons(e, []);
    assert [e] + [] == [e];
    TailCons(d, [e]);
    assert [d] + [e] == [d, e];
    var td := Tail([d, e]);
    TailCons(c, [d, e]);
    assert [c] + [d, e] == [c, d, e];
    var tc := Tail([c, d, e]);
    TailCons(b, [c, d, e]);
    assert [b] + [c, d, e] == [b, c, d, e];
    var tb := Tail([b, c, d, e]);
    TailCons(a, [b, c, d, e]);
    assert [a] + [b, c, d, e] == [a, b, c, d, e];
    assert te == " " + e;
    assert td == " " + d + te;
    assert tc == " " + c + td;
    assert tb == " " + b + tc;
  }

  /** An option's words are words when its flag and value are. */
  lemma OptWordsAreWords(applies: bool, flag: string, value: string)
    requires applies ==> Word(flag) && Word(value)
    ensures AllWords(OptWords(applies, flag, value))
  {
  }

  lemma AppendWords(a: seq<string>, b: seq<string>)
    requires AllWords(a) && AllWords(b)
    ensures AllWords(a + b)
  {
    forall i | 0 <= i < |a + b| ensures Word((a + b)[i]) {
      if i < |a| { assert (a + b)[i] == a[i]; } else { assert (a + b)[i] == b[i - |a|]; }
    }
  }

  /** A space splits a line in two: the words before it, then the words after it. */
  lemma {:induction false} SplitAround(a: string, b: string)
    ensures Split(a + " " + b, ' ') == Split(a, ' ') + Split(b, ' ')
    decreases |a|
  {
    var s := a + " " + b;
    if |a| == 0 {
      assert s == " " + b && s[1..] == b;
    } else {
      assert s[1..] == a[1..] + " " + b;
      SplitAround(a[1..], b);
    }
  }

  /**
   * Splitting a line with words appended gives the line's own words followed
   * by the appended ones, whatever the line holds.
   */
  lemma ReadBackAfter(base: string, ws: seq<string>)
    requires AllWords(ws)
    ensures Split(base + Tail(ws), ' ') == Split(base, ' ') + ws
  {
    if ws == [] {
      assert base + Tail(ws) == base;
    } else {
      var line := Line(ws);
      var text := base + " " + line;
      assert base + Tail(ws) == text;
      SplitAround(base, line);
      ParseLine(ws);
    }
  }
}
