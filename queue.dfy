/**
 * The file-backed FIFO of `shared_components/queue.py`. Each item is one line
 * of a text file: `queue` appends a line, `dequeue` reads the first line and
 * copies the others to a temporary file that then replaces the original, and
 * the `lines` attribute caches how many lines the file holds. The file is its
 * text, a `string`; the temporary file is the text being built by the copy.
 * Reads are in text mode, so they see the file's text after `Translate`
 * ("\r\n" and '\r' read as '\n'); writes store text as given (POSIX).
 */
module FileQueue {
  import opened Wrappers
  import opened Text

  /** `readline()` on a file whose translated text is `s`: the first line, its '\n' included. */
  function FirstLine(s: string): (l: string)
    ensures StartsWith(s, l)
  {
    s[..LineEnd(s)]
  }

  /** What iterating over the file yields after that first `readline()`, joined back together. */
  function AfterFirstLine(s: string): (r: string)
    ensures FirstLine(s) + r == s
    ensures |r| < |s| || s == []
  {
    s[LineEnd(s)..]
  }

  /**
   * An item that comes back out of the queue as it went in: no line
   * terminator ('\n' or '\r') inside, and no whitespace at either end for
   * `strip()` to remove.
   */
  predicate Item(x: string) {
    '\n' !in x && '\r' !in x && (|x| > 0 ==> x[0] !in Whitespace && x[|x| - 1] !in Whitespace)
  }

  /** The items that `n` successive `dequeue` calls on a file holding `s` return (each one reads the file anew). */
  function Drain(s: string, n: nat): (r: seq<string>)
    ensures |r| == n
    decreases n
  {
    if n == 0 then [] else [Strip(FirstLine(Translate(s)))] + Drain(AfterFirstLine(Translate(s)), n - 1)
  }

  class Queue {
    /** The text of the file at `path`. */
    var content: string
    /** The cached line count. */
    var lines: int

    /** The file ends with a complete line and `lines` is the number of lines a read of it yields. */
    ghost predicate Valid()
      reads this
    {
      EndsLine(content) && lines == |Lines(Translate(content))|
    }

    /**
     * `Queue(path)`: the file is opened for appending, which creates it empty
     * when it does not exist (`existing` is `None`), then its lines are counted.
     */
    constructor (existing: Option<string>)
      ensures content == (if existing.Some? then existing.value else "")
      ensures lines == |Lines(Translate(content))|
      ensures existing.None? ==> Valid() && lines == 0
    {
      content := if existing.Some? then existing.value else "";
      lines := 0;
      new;
      lines := CountLines();
    }

    /** `count_lines`: one step per line the file iterator yields. */
    method CountLines() returns (count: nat)
      ensures count == |Lines(Translate(content))|
    {
      count := 0;
      var rest := Translate(content);
      while rest != []
        invariant count + |Lines(rest)| == |Lines(Translate(content))|
        decreases |rest|
      {
        rest := rest[LineEnd(rest)..];
        count := count + 1;
      }
    }

    /**
     * `queue(line)`: writes the line and its '\n' at the end of the file and
     * counts one more line; the count stays right when the line holds no
     * line terminator.
     */
    method Enqueue(x: string)
      modifies this
      ensures content == old(content) + x + "\n" && lines == old(lines) + 1
      ensures old(Valid()) && '\n' !in x && '\r' !in x ==>
        Valid() && Lines(Translate(content)) == old(Lines(Translate(content))) + [x + "\n"]
    {
      if EndsLine(content) && '\n' !in x && '\r' !in x {
        EnqueueReads(content, x);
      }
      content := content + x + "\n";
      lines := lines + 1;
    }

    /**
     * `dequeue()`: `None` when the count is zero; otherwise the stripped first
     * line, and the file keeps the lines after it, in order.
     */
    method Dequeue() returns (r: Option<string>)
      modifies this
      ensures old(lines) == 0 ==> r == None && content == old(content) && lines == old(lines)
      ensures old(lines) != 0 ==>
        && r == Some(Strip(FirstLine(Translate(old(content)))))
        && content == AfterFirstLine(Translate(old(content)))
        && lines == old(lines) - 1
      ensures old(Valid()) ==> Valid()
    {
      if lines == 0 {
        return None;
      }
      var text := Translate(content);
      var first := FirstLine(text);
      var temp := CopyLines(AfterFirstLine(text));
      if EndsLine(content) && content != [] {
        DequeueReads(content);
      }
      content := temp;
      lines := lines - 1;
      r := Some(Strip(first));
    }
  }

  /** `for line in file: temp_file.write(line)`: the temporary file ends up holding exactly the (translated) text still unread. */
  method CopyLines(unread: string) returns (temp: string)
    ensures temp == unread
  {
    temp := "";
    var rest := unread;
    while rest != []
      invariant temp + rest == unread
      decreases |rest|
    {
      var line := rest[..LineEnd(rest)];
      CopyStep(temp, rest);
      temp := temp + line;
      rest := rest[LineEnd(rest)..];
    }
  }

  /** Copying the next line to the temporary file keeps the text still to copy after it. */
  lemma CopyStep(temp: string, rest: string)
    requires rest != []
    ensures (temp + rest[..LineEnd(rest)]) + rest[LineEnd(rest)..] == temp + rest
  {
    assert rest[..LineEnd(rest)] + rest[LineEnd(rest)..] == rest;
  }

  /** Taking the first line off a non-empty file leaves one line fewer, and a file that ended with '\n' still does. */
  lemma DequeueKeepsCount(s: string)
    requires s != []
    ensures |Lines(AfterFirstLine(s))| == |Lines(s)| - 1
    ensures EndsLine(s) ==> EndsLine(AfterFirstLine(s))
  {
    var r := AfterFirstLine(s);
    assert Lines(s) == [FirstLine(s)] + Lines(r);
    if EndsLine(s) && r != [] {
      assert r[|r| - 1] == s[|s| - 1];
    }
  }

  /** Appending a line without terminators to a file that ends with a complete line: a read sees one more line. */
  lemma EnqueueReads(s: string, x: string)
    requires EndsLine(s) && '\n' !in x && '\r' !in x
    ensures Translate(s + x + "\n") == Translate(s) + x + "\n"
    ensures EndsLine(s + x + "\n")
    ensures Lines(Translate(s + x + "\n")) == Lines(Translate(s)) + [x + "\n"]
  {
    var t, line := Translate(s), x + "\n";
    assert s + x + "\n" == s + line && t + x + "\n" == t + line;
    PlainLine(x);
    TranslateAppend(s, line);
    assert EndsLine(t) by {
      if s != [] {
        TranslateEndsLine(s);
      }
    }
    LinesAppend(t, x);
  }

  /** A line without '\r', written with its '\n', reads back as written. */
  lemma PlainLine(x: string)
    requires '\r' !in x
    ensures '\r' !in x + "\n"
    ensures Translate(x + "\n") == x + "\n"
  {
    var line := x + "\n";
    assert forall i | 0 <= i < |line| :: line[i] == if i < |x| then x[i] else '\n';
    TranslatePlain(line);
  }

  /** What a dequeue leaves, the rest of the translated text, reads back as itself with one line fewer. */
  lemma DequeueReads(s: string)
    requires s != [] && EndsLine(s)
    ensures EndsLine(AfterFirstLine(Translate(s)))
    ensures Translate(AfterFirstLine(Translate(s))) == AfterFirstLine(Translate(s))
    ensures |Lines(Translate(AfterFirstLine(Translate(s))))| == |Lines(Translate(s))| - 1
  {
    var t := Translate(s);
    TranslateEndsLine(s);
    DequeueKeepsCount(t);
    SuffixLacks(t, LineEnd(t), '\r');
    TranslatePlain(AfterFirstLine(t));
  }

  lemma SuffixLacks(t: string, k: nat, c: char)
    requires k <= |t| && c !in t
    ensures c !in t[k..]
  {
    assert forall i | 0 <= i < |t| - k :: t[k..][i] == t[k + i];
  }

  /** A file of items has no '\r' for a read to translate. */
  lemma {:induction false} UnlinesPlain(xs: seq<string>)
    requires forall i | 0 <= i < |xs| :: '\r' !in xs[i]
    ensures Translate(Unlines(xs)) == Unlines(xs)
    decreases |xs|
  {
    if xs != [] {
      var rest := xs[1..];
      assert forall i | 0 <= i < |rest| :: rest[i] == xs[i + 1];
      UnlinesPlain(rest);
      var line := xs[0] + "\n";
      assert Unlines(xs) == line + Unlines(rest);
      PlainLine(xs[0]);
      TranslateAppend(line, Unlines(rest));
    }
  }

  /**
   * An item with a '\r' inside does not survive the queue: a read splits
   * "a\rb" into two lines, so `dequeue` returns "a" and the file is left
   * holding "b", while `lines` counted one line.
   */
  lemma CarriageReturnSplitsItem()
    ensures Translate(Unlines(["a\rb"])) == "a\nb\n"
    ensures |Lines(Translate(Unlines(["a\rb"])))| == 2
    ensures Drain(Unlines(["a\rb"]), 1) == ["a"]
    ensures AfterFirstLine(Translate(Unlines(["a\rb"]))) == "b\n"
  {
    UnlinesOne("a\rb");
    ReadsCarriageReturn();
    LinesOfTwo();
    StripFirst();
  }

  lemma UnlinesOne(x: string)
    ensures Unlines([x]) == x + "\n"
  {
    assert [x][1..] == [];
  }

  lemma StripFirst()
    ensures Strip(FirstLine("a\nb\n")) == "a"
  {
    LinesOfTwo();
    var t := "a\nb\n";
    assert t[..2] == "a\n";
    StripOfA();
  }

  lemma StripOfA()
    ensures Strip("a\n") == "a"
  {
    StripOneChar('a');
    assert ['a', '\n'] == "a\n" && ['a'] == "a";
  }

  lemma StripOneChar(c: char)
    requires c !in Whitespace
    ensures Strip([c, '\n']) == [c]
  {
    StripTrimmed([c]);
    StripLine([c]);
    assert [c] + "\n" == [c, '\n'];
  }

  lemma ReadsCarriageReturn()
    ensures Translate("a\rb\n") == "a\nb\n"
  {
    assert Translate("\n") == "\n";
    assert Translate("b\n") == "b\n";
    assert ("\rb\n")[1..] == "b\n";
    assert Translate("\rb\n") == "\nb\n";
    assert ("a\rb\n")[1..] == "\rb\n";
  }

  lemma LinesOfTwo()
    ensures LineEnd("a\nb\n") == 2
    ensures Lines("a\nb\n") == ["a\n", "b\n"]
  {
    var t := "a\nb\n";
    var u := "b\n";
    assert t[1..] == "\nb\n";
    assert LineEnd(t[1..]) == 1;
    assert u[1..] == "\n";
    assert LineEnd(u[1..]) == 1;
    assert LineEnd(u) == 2;
    assert u[..2] == u && u[2..] == [];
    assert Lines(u) == [u];
    assert t[..2] == "a\n" && t[2..] == u;
  }

  /** `queue(x)` on a file that holds the items `xs` makes it hold `xs + [x]`. */
  lemma {:induction false} EnqueueUnlines(xs: seq<string>, x: string)
    ensures Unlines(xs) + x + "\n" == Unlines(xs + [x])
    decreases |xs|
  {
    if xs != [] {
      assert (xs + [x])[1..] == xs[1..] + [x];
      EnqueueUnlines(xs[1..], x);
    }
  }

  /** `dequeue()` on a file that holds the items `xs` returns `xs[0]` and leaves the rest. */
  lemma DequeueUnlines(xs: seq<string>)
    requires xs != [] && forall i | 0 <= i < |xs| :: Item(xs[i])
    ensures Strip(FirstLine(Translate(Unlines(xs)))) == xs[0]
    ensures AfterFirstLine(Translate(Unlines(xs))) == Unlines(xs[1..])
  {
    UnlinesPlain(xs);
    var s := Unlines(xs);
    assert s == (xs[0] + "\n") + Unlines(xs[1..]);
    NoNewlineLineEnd(xs[0]);
    LineEndOfPrefix(xs[0] + "\n", Unlines(xs[1..]));
    assert FirstLine(s) == xs[0] + "\n";
    StripLine(xs[0]);
    StripTrimmed(xs[0]);
  }

  lemma DrainStep(s: string, n: nat)
    requires n > 0
    ensures Drain(s, n) == [Strip(FirstLine(Translate(s)))] + Drain(AfterFirstLine(Translate(s)), n - 1)
  {
  }

  /** Draining a file of items yields its first item, then what draining the rest yields. */
  lemma DrainItems(xs: seq<string>)
    requires xs != [] && forall i | 0 <= i < |xs| :: Item(xs[i])
    ensures Drain(Unlines(xs), |xs|) == [xs[0]] + Drain(Unlines(xs[1..]), |xs| - 1)
  {
    DequeueUnlines(xs);
    DrainStep(Unlines(xs), |xs|);
  }

  /** First in, first out: dequeuing a file of items returns them in the order they were queued. */
  lemma {:induction false} Fifo(xs: seq<string>)
    requires forall i | 0 <= i < |xs| :: Item(xs[i])
    ensures Drain(Unlines(xs), |xs|) == xs
    decreases |xs|
  {
    if xs != [] {
      var rest := xs[1..];
      var d := Drain(Unlines(xs), |xs|);
      assert d == [xs[0]] + Drain(Unlines(rest), |rest|) by {
        ItemsRest(xs);
        DrainItems(xs);
      }
      assert Drain(Unlines(rest), |rest|) == rest by {
        ItemsRest(xs);
        Fifo(rest);
      }
      ConsRest(xs);
    }
  }

  lemma ItemsRest(xs: seq<string>)
    requires xs != [] && forall i | 0 <= i < |xs| :: Item(xs[i])
    ensures Item(xs[0]) && forall i | 0 <= i < |xs[1..]| :: Item(xs[1..][i])
  {
    forall i | 0 <= i < |xs[1..]|
      ensures Item(xs[1..][i])
    {
      assert xs[1..][i] == xs[i + 1];
    }
  }

  lemma ConsRest<T>(xs: seq<T>)
    requires xs != []
    ensures [xs[0]] + xs[1..] == xs
  {
  }

  /** The count the constructor caches on a file of items is the number of items. */
  lemma CountOfItems(xs: seq<string>)
    requires forall i | 0 <= i < |xs| :: Item(xs[i])
    ensures |Lines(Translate(Unlines(xs)))| == |xs|
    ensures EndsLine(Unlines(xs))
  {
    UnlinesPlain(xs);
    LinesOfUnlines(xs);
  }
}
