/**
 * The registry of chat commands and callbacks (sdk/Private/Commands.h, sdk/Private/Commands.cpp).
 * Whatever is registered, removed and checked, each name behaves as a queue of its own.
 */
module Commands {
  import opened Wrappers
  import opened StdAlgorithms

  // ----- names -----

  /** Names compare without regard to the case of ASCII letters. */
  function Lower(c: char): char {
    if 'A' <= c <= 'Z' then (c as int + 32) as char else c
  }

  function Fold(s: string): string {
    seq(|s|, i requires 0 <= i < |s| => Lower(s[i]))
  }

  predicate SameName(s: string, t: string) {
    Fold(s) == Fold(t)
  }

  function WordLength(s: string): nat
    ensures WordLength(s) <= |s|
  {
    if s == "" || s[0] == ' ' then 0 else 1 + WordLength(s[1..])
  }

  /** The first word of a message; leading spaces are culled. */
  function FirstWord(s: string): Option<string> {
    if s == "" then None
    else if s[0] == ' ' then FirstWord(s[1..])
    else Some(s[..WordLength(s)])
  }

  /** The same letter, or the small and the capital form of one. */
  predicate SameLetter(c: char, d: char) {
    c == d || ('A' <= c <= 'Z' && d as int == c as int + 32) || ('A' <= d <= 'Z' && c as int == d as int + 32)
  }

  /** Names are the same exactly when they are so letter by letter. */
  lemma SameNameIff(s: string, t: string)
    ensures SameName(s, t) <==> |s| == |t| && forall i :: 0 <= i < |s| ==> SameLetter(s[i], t[i])
  {
    hide Lower, SameLetter;
    forall i | 0 <= i < |s| == |t|
      ensures Fold(s)[i] == Fold(t)[i] <==> SameLetter(s[i], t[i])
    {
      SameLetterIff(s[i], t[i]);
    }
    if SameName(s, t) {
      assert |Fold(s)| == |Fold(t)|;
    }
  }

  lemma SameLetterIff(c: char, d: char)
    ensures Lower(c) == Lower(d) <==> SameLetter(c, d)
  {
  }

  /** After `i` spaces, `word` up to the next space or the end of the message. */
  predicate IsFirstWord(s: string, word: string, i: nat) {
    i + |word| <= |s| && word != "" && s[i..i + |word|] == word && (i + |word| < |s| ==> s[i + |word|] == ' ') &&
    (forall k :: 0 <= k < i ==> s[k] == ' ') && (forall k :: 0 <= k < |word| ==> word[k] != ' ')
  }

  lemma {:induction false} WordLengthIs(s: string, n: nat)
    requires n <= |s| && (n < |s| ==> s[n] == ' ') && forall k :: 0 <= k < n ==> s[k] != ' '
    ensures WordLength(s) == n
  {
    if n > 0 { WordLengthIs(s[1..], n - 1); }
  }

  lemma {:induction false} WordEnds(s: string)
    ensures var n := WordLength(s);
            (n < |s| ==> s[n] == ' ') && forall k :: 0 <= k < n ==> s[k] != ' '
  {
    if s != "" && s[0] != ' ' { WordEnds(s[1..]); }
  }

  /** That is what the split at spaces, empty parts culled, puts first. */
  lemma {:induction false} FirstWordFound(s: string, word: string, i: nat)
    requires IsFirstWord(s, word, i)
    ensures FirstWord(s) == Some(word)
    decreases i
  {
    if i > 0 {
      assert s[1..][i - 1..i - 1 + |word|] == s[i..i + |word|];
      FirstWordFound(s[1..], word, i - 1);
    } else {
      assert forall k :: 0 <= k < |word| ==> s[k] == word[k];
      WordLengthIs(s, |word|);
    }
  }

  lemma {:induction false} FirstWordIs(s: string)
    ensures FirstWord(s).None? <==> forall k :: 0 <= k < |s| ==> s[k] == ' '
    ensures FirstWord(s).Some? ==> exists i: nat :: IsFirstWord(s, FirstWord(s).value, i)
  {
    if s == "" {
    } else if s[0] == ' ' {
      FirstWordIs(s[1..]);
      assert forall k :: 1 <= k < |s| ==> s[k] == s[1..][k - 1];
      if FirstWord(s).Some? {
        var w := FirstWord(s).value;
        var i: nat :| IsFirstWord(s[1..], w, i);
        assert s[1..][i..i + |w|] == s[i + 1..i + 1 + |w|];
        assert IsFirstWord(s, w, i + 1);
      }
    } else {
      WordEnds(s);
      assert IsFirstWord(s, FirstWord(s).value, 0);
    }
  }

  // ----- registered commands -----

  class Command<C> {
    const name: string
    const callback: C

    constructor (name: string, callback: C)
      ensures this.name == name && this.callback == callback
    {
      this.name := name;
      this.callback := callback;
    }
  }

  /** The callbacks under one name, oldest first. */
  function Queue<C>(commands: seq<Command<C>>, name: string): seq<C> {
    if commands == [] then []
    else
      var rest := Queue(commands[1..], name);
      if SameName(commands[0].name, name) then [commands[0].callback] + rest else rest
  }

  function Tail<T>(queue: seq<T>): seq<T> {
    if queue == [] then [] else queue[1..]
  }

  lemma {:induction false} QueueOfParts<C>(s: seq<Command<C>>, t: seq<Command<C>>, name: string)
    ensures Queue(s + t, name) == Queue(s, name) + Queue(t, name)
  {
    if s == [] {
      assert s + t == t;
    } else {
      QueueOfParts(s[1..], t, name);
      assert (s + t)[1..] == s[1..] + t;
    }
  }

  lemma {:induction false} NoMatchNoQueue<C>(s: seq<Command<C>>, name: string)
    requires forall i :: 0 <= i < |s| ==> !SameName(s[i].name, name)
    ensures Queue(s, name) == []
  {
    if s != [] {
      assert forall i :: 0 <= i < |s[1..]| ==> s[1..][i] == s[i + 1];
      NoMatchNoQueue(s[1..], name);
    }
  }

  predicate IsFirstMatch<C>(s: seq<Command<C>>, name: string, k: nat) {
    k < |s| && SameName(s[k].name, name) && forall i :: 0 <= i < k ==> !SameName(s[i].name, name)
  }

  lemma FirstMatchIsHead<C>(s: seq<Command<C>>, name: string, k: nat)
    requires IsFirstMatch(s, name, k)
    ensures Queue(s, name) == [s[k].callback] + Queue(s[k + 1..], name)
  {
    hide SameName;
    assert s == s[..k] + s[k..] && s[k..][1..] == s[k + 1..];
    QueueOfParts(s[..k], s[k..], name);
    NoMatchNoQueue(s[..k], name);
  }

  /** Taking out the first match pops one queue and leaves every other as it was. */
  lemma RemovalPopsOneQueue<C>(s: seq<Command<C>>, name: string, k: nat, other: string)
    requires IsFirstMatch(s, name, k)
    ensures var left := s[..k] + s[k + 1..];
            Queue(left, other) == if SameName(other, name) then Tail(Queue(s, other)) else Queue(s, other)
  {
    assert s == s[..k] + ([s[k]] + s[k + 1..]);
    QueueOfParts(s[..k], s[k + 1..], other);
    QueueOfParts(s[..k], [s[k]] + s[k + 1..], other);
    QueueOfParts([s[k]], s[k + 1..], other);
    if SameName(other, name) {
      NoMatchNoQueue(s[..k], other);
    }
  }

  class Registry<C> {
    var commands: seq<Command<C>>

    /** No object is registered twice. */
    ghost predicate Valid()
      reads this
    {
      Distinct(commands)
    }

    constructor ()
      ensures Valid() && commands == []
    {
      commands := [];
    }

    method AddCommand(name: string, callback: C)
      requires Valid()
      modifies this
      ensures Valid() && |commands| == |old(commands)| + 1 && commands[..|old(commands)|] == old(commands)
      ensures forall id :: Queue(commands, id)
                == if SameName(name, id) then old(Queue(commands, id)) + [callback] else old(Queue(commands, id))
    {
      var added := new Command(name, callback);
      ghost var before := commands;
      commands := commands + [added];
      forall id: string
        ensures Queue(commands, id) == if SameName(name, id) then Queue(before, id) + [callback] else Queue(before, id)
      {
        QueueOfParts(before, [added], id);
      }
    }

    method FindFirst(name: string) returns (k: nat)
      ensures k < |commands| ==> IsFirstMatch(commands, name, k)
      ensures k >= |commands| ==> Queue(commands, name) == []
    {
      hide SameName;
      k := 0;
      while k < |commands| && !SameName(commands[k].name, name)
        invariant k <= |commands|
        invariant forall i :: 0 <= i < k ==> !SameName(commands[i].name, name)
      {
        k := k + 1;
      }
      if k == |commands| { NoMatchNoQueue(commands, name); }
    }

    method RemoveCommand(name: string) returns (removed: bool)
      requires Valid()
      modifies this
      ensures Valid() && removed == (old(Queue(commands, name)) != [])
      ensures !removed ==> commands == old(commands)
      ensures removed ==> exists k: nat :: IsFirstMatch(old(commands), name, k) &&
                                           commands == old(commands)[..k] + old(commands)[k + 1..]
      ensures forall id :: Queue(commands, id)
                == if removed && SameName(id, name) then Tail(old(Queue(commands, id))) else old(Queue(commands, id))
    {
      hide Queue, SameName, RemovedThrough, Distinct;
      var k := FindFirst(name);
      removed := k < |commands|;
      if removed {
        ghost var s := commands;
        DistinctRemovesOne(s, k);
        var slots := new Command<C>[|commands|](i requires 0 <= i < |commands| reads this => commands[i]);
        assert slots[..] == s && slots[..k] == s[..k];
        var end := RemoveAliased(slots, k);
        commands := slots[..end];
        FirstMatchIsHead(s, name, k);
        forall id: string
          ensures Queue(commands, id) == if SameName(id, name) then Tail(Queue(s, id)) else Queue(s, id)
        {
          RemovalPopsOneQueue(s, name, k, id);
        }
      }
    }

    /** The callback that a message runs: the oldest one still registered under its first word. */
    method CheckCommands(message: string) returns (run: Option<C>)
      ensures (forall k :: 0 <= k < |message| ==> message[k] == ' ') ==> run == None
      ensures forall word, i: nat :: IsFirstWord(message, word, i) ==>
                run == if Queue(commands, word) == [] then None else Some(Queue(commands, word)[0])
    {
      hide Queue, IsFirstWord, FirstWord;
      FirstWordIs(message);
      forall w, i: nat | IsFirstWord(message, w, i)
        ensures FirstWord(message) == Some(w)
      {
        FirstWordFound(message, w, i);
      }
      var word := FirstWord(message);
      if word.None? { return None; }
      var k := FindFirst(word.value);
      if k < |commands| {
        FirstMatchIsHead(commands, word.value, k);
        run := Some(commands[k].callback);
      } else {
        run := None;
      }
    }
  }

  /** Aliased removal would take a second entry if one object were registered twice. */
  lemma TwiceRegisteredGoesTwice<C>(c: Command<C>, d: Command<C>)
    ensures RemovedThrough([c, c, d], 0) != [c, d]
    ensures RemovedThrough([c, d, d], 0) != [d, d]
  {
    RemovesOneIff([c, c, d], 0);
    RemovesOneIff([c, d, d], 0);
    assert [c, c, d][1..] == [c, d] && [c, d, d][1..] == [d, d];
  }
}
