/** The bounded filter that lets history deliveries overlap without showing a
    message twice. */
module Duplicates {
  import opened Lists
  import opened Text
  import opened Sizes

  const WINDOW := 512
  const FINGERPRINT_TEXT_BYTES := 512

  type Byte = b: int | 0 <= b < 256

  /** One retained line. `text` is its UTF-8 form; `history` says it was
      replayed or requested rather than received live. */
  datatype Message = Message(sequence: int, timestamp: Option<int>, nativeId: Option<string>, sender: string,
                             text: seq<Byte>,
                             activity: bool, action: bool, history: bool)

  /** What the filter hashes, kept apart by constructor. Hash collisions are
      not part of this model. */
  datatype Key =
    | Native(id: string)
    | Fingerprint(timestamp: int, activity: bool, action: bool, sender: string, length: nat, head: seq<Byte>)

  function Head(text: seq<Byte>): (r: seq<Byte>)
    ensures r <= text && |r| <= FINGERPRINT_TEXT_BYTES
  {
    if |text| <= FINGERPRINT_TEXT_BYTES then text else text[..FINGERPRINT_TEXT_BYTES]
  }

  function KeyOf(m: Message): (key: Option<Key>)
    ensures key.None? <==> m.nativeId.None? && m.timestamp.None?
  {
    match (m.nativeId, m.timestamp)
    case (Some(id), _) => Some(Native(id))
    case (None, Some(at)) => Some(Fingerprint(at, m.activity, m.action, m.sender, |m.text|, Head(m.text)))
    case (None, None) => None
  }

  /** Whether a match of its key drops `m`: an identifier always does, a
      fingerprint only drops history. */
  predicate Suppresses(m: Message) {
    m.nativeId.Some? || (m.timestamp.Some? && m.history)
  }

  /** Whether a filter remembering `order` recognizes `m`. */
  predicate Recognized(order: seq<Key>, m: Message) {
    Suppresses(m) && KeyOf(m).value in order
  }

  /** What is remembered once `m` was checked: the key goes last, and the
      oldest one is forgotten when the window is full. */
  function Remember(order: seq<Key>, m: Message): (r: seq<Key>)
    ensures Distinct(order) && |order| <= WINDOW ==> Distinct(r) && |r| <= WINDOW
  {
    match KeyOf(m)
    case None => order
    case Some(key) =>
      if key in order then order
      else if |order| >= WINDOW then order[1..] + [key]
      else order + [key]
  }

  /** What is remembered after the messages of `run`, from nothing. */
  function Window(run: seq<Message>): (r: seq<Key>)
    ensures Distinct(r) && |r| <= WINDOW && |r| <= |run|
  {
    if run == [] then [] else Remember(Window(run[..|run| - 1]), run[|run| - 1])
  }

  /** The keys of `messages`. */
  ghost function Keys(messages: seq<Message>): set<Key> {
    set m | m in messages && KeyOf(m).Some? :: KeyOf(m).value
  }

  /** Every key ever recorded over a run, in order. */
  ghost function Recorded(run: seq<Message>): seq<Key> {
    if run == [] then []
    else
      var before := run[..|run| - 1];
      match KeyOf(run[|run| - 1])
      case None => Recorded(before)
      case Some(key) => if key in Window(before) then Recorded(before) else Recorded(before) + [key]
  }

  /** The window is always the newest 512 keys recorded, so a repeat is
      recognized as long as at most 511 other keys were recorded since. */
  lemma {:induction false} WindowIsNewest(run: seq<Message>)
    ensures |Window(run)| == if |Recorded(run)| <= WINDOW then |Recorded(run)| else WINDOW
    ensures Window(run) == Recorded(run)[|Recorded(run)| - |Window(run)|..]
  {
    if run != [] {
      WindowIsNewest(run[..|run| - 1]);
    }
  }

  /** Up to 512 messages nothing is forgotten: the window knows exactly their
      keys. */
  lemma {:induction false} NothingForgotten(run: seq<Message>)
    requires |run| <= WINDOW
    ensures forall key :: key in Window(run) <==> key in Keys(run)
  {
    if run != [] {
      var before, last := run[..|run| - 1], run[|run| - 1];
      NothingForgotten(before);
      assert run == before + [last];
      assert Keys(run) == Keys(before) + if KeyOf(last).Some? then {KeyOf(last).value} else {};
    }
  }

  /** The lines of a page are checked against the topmost lines of the log and
      the page itself, and nothing else: the window over 256 topmost lines and
      at most 256 page lines never overflows, so a line is recognized exactly
      when it shares a key with one of them. */
  lemma OverlapIsExact(top: seq<Message>, page: seq<Message>, m: Message)
    requires |top| <= 256 && |page| <= 256
    ensures Recognized(Window(top + page), m) <==> Suppresses(m) && KeyOf(m).value in Keys(top) + Keys(page)
  {
    NothingForgotten(top + page);
    assert Keys(top + page) == Keys(top) + Keys(page);
  }

  /** Two messages have the same key exactly when a source gave them the same
      identifier or, without any, they agree in time, kind, sender, and in the
      length and first 512 bytes of the text. */
  lemma SameKey(a: Message, b: Message)
    ensures KeyOf(a).Some? && KeyOf(a) == KeyOf(b) <==>
              || (a.nativeId.Some? && a.nativeId == b.nativeId)
              || (&& a.nativeId.None? && b.nativeId.None? && a.timestamp.Some? && a.timestamp == b.timestamp
                  && a.sender == b.sender && a.activity == b.activity && a.action == b.action
                  && |a.text| == |b.text| && forall i :: 0 <= i < |a.text| && i < 512 ==> a.text[i] == b.text[i])
  {
    if |a.text| == |b.text| && forall i :: 0 <= i < |a.text| && i < 512 ==> a.text[i] == b.text[i] {
      assert |Head(a.text)| == |Head(b.text)|;
      assert Head(a.text) == Head(b.text);
    }
    if Head(a.text) == Head(b.text) && |a.text| == |b.text| {
      assert forall i :: 0 <= i < |a.text| && i < 512 ==> a.text[i] == Head(a.text)[i];
      assert forall i :: 0 <= i < |b.text| && i < 512 ==> b.text[i] == Head(b.text)[i];
    }
  }

  /** Whether the window over `before` records the key of `m` anew. */
  ghost predicate Records(before: seq<Message>, m: Message) {
    KeyOf(m).Some? && KeyOf(m).value !in Window(before)
  }

  /** The key is at place `p`, and only `others` came after it. */
  ghost predicate StandsAt(order: seq<Key>, key: Key, p: nat, others: set<Key>) {
    p < |order| && order[p] == key && forall k :: k in order[p + 1..] ==> k in others
  }

  /** Where a key stands that was recorded before the messages of `after`. */
  lemma {:induction false} StillThere(before: seq<Message>, first: Message, after: seq<Message>) returns (p: nat)
    requires Records(before, first) && |Keys(after) - {KeyOf(first).value}| < WINDOW
    ensures StandsAt(Window(before + [first] + after), KeyOf(first).value, p, Keys(after) - {KeyOf(first).value})
  {
    if after == [] {
      hide Window, KeyOf, StandsAt, Records;
      p := FirstStands(before, first);
      assert before + [first] + after == before + [first];
      assert Keys(after) == {};
    } else {
      hide Window, Keys, Remember, KeyOf, StandsAt, Records;
      var front, last := after[..|after| - 1], after[|after| - 1];
      assert KeyOf(first).Some? by {
        RecordsKey(before, first);
      }
      var key := KeyOf(first).value;
      assert after == front + [last];
      MoreKeys(front, last);
      SubsetSize(Keys(front) - {key}, Keys(after) - {key});
      p := StillThere(before, first, front);
      WindowNext(before + [first] + front, last);
      Associative(before + [first], front, [last]);
      p := KeyMoves(Window(before + [first] + front), last, key, p, Keys(front) - {key}, Keys(after) - {key});
    }
  }

  lemma RecordsKey(before: seq<Message>, m: Message)
    requires Records(before, m)
    ensures KeyOf(m).Some?
  {
  }

  lemma FirstStands(before: seq<Message>, first: Message) returns (p: nat)
    requires Records(before, first)
    ensures StandsAt(Window(before + [first]), KeyOf(first).value, p, {})
  {
    hide Window, KeyOf;
    WindowNext(before, first);
    p := |Window(before + [first])| - 1;
  }

  lemma WindowNext(run: seq<Message>, m: Message)
    ensures Window(run + [m]) == Remember(Window(run), m)
  {
    hide Remember;
    assert (run + [m])[..|run|] == run;
  }

  lemma MoreKeys(front: seq<Message>, last: Message)
    ensures Keys(front + [last]) == Keys(front) + if KeyOf(last).Some? then {KeyOf(last).value} else {}
  {
  }

  /** One more message moves a key at most one place towards the front. */
  lemma KeyMoves(order: seq<Key>, m: Message, key: Key, at: nat, others: set<Key>, more: set<Key>) returns (p: nat)
    requires Distinct(order) && |order| <= WINDOW && StandsAt(order, key, at, others)
    requires others <= more && |more| < WINDOW && key !in more && (KeyOf(m).Some? ==> KeyOf(m).value in more + {key})
    ensures StandsAt(Remember(order, m), key, p, more)
  {
    hide KeyOf;
    p := at;
    if KeyOf(m).Some? && KeyOf(m).value !in order {
      var tail := order[at + 1..];
      if |order| == WINDOW {
        DistinctSize(tail + [KeyOf(m).value], more);
        p := at - 1;
        assert Remember(order, m)[p + 1..] == tail + [KeyOf(m).value];
      } else {
        assert Remember(order, m)[p + 1..] == tail + [KeyOf(m).value];
      }
    }
  }

  lemma {:induction false} DistinctSize(s: seq<Key>, all: set<Key>)
    requires Distinct(s) && forall k :: k in s ==> k in all
    ensures |s| <= |all|
  {
    if s != [] {
      DistinctSize(s[..|s| - 1], all - {s[|s| - 1]});
    }
  }

  /** A repeated line is recognized while at most 511 other keys came since its
      key was recorded. */
  lemma RepeatRecognized(run: seq<Message>, i: nat, m: Message)
    requires i < |run| && Records(run[..i], run[i]) && KeyOf(m) == KeyOf(run[i])
    requires |Keys(run[i + 1..]) - {KeyOf(m).value}| < WINDOW
    ensures Recognized(Window(run), m) <==> m.nativeId.Some? || m.history
  {
    hide Window, Keys;
    assert run == run[..i] + [run[i]] + run[i + 1..];
    var p := StillThere(run[..i], run[i], run[i + 1..]);
  }

  /** A line whose key no line of the run has is not recognized. */
  lemma {:induction false} NewIsNew(run: seq<Message>, m: Message)
    requires Recognized(Window(run), m)
    ensures exists i :: 0 <= i < |run| && KeyOf(run[i]) == KeyOf(m)
  {
    if run != [] {
      var front := run[..|run| - 1];
      if Recognized(Window(front), m) {
        NewIsNew(front, m);
        var i :| 0 <= i < |front| && KeyOf(front[i]) == KeyOf(m);
        assert run[i] == front[i];
      } else {
        assert KeyOf(run[|run| - 1]) == KeyOf(m);
      }
    }
  }

  class DuplicateFilter {
    var order: seq<Key>
    var seen: set<Key>

    ghost predicate Valid()
      reads this
    {
      |order| <= WINDOW && Distinct(order) && seen == set key | key in order
    }

    constructor ()
      ensures Valid() && order == []
    {
      order, seen := [], {};
    }

    /** Records `m` and tells whether it is new. */
    method Admit(m: Message) returns (isNew: bool)
      requires Valid()
      modifies this
      ensures Valid() && order == Remember(old(order), m)
      ensures isNew <==> !Recognized(old(order), m)
    {
      var key := KeyOf(m);
      if key.None? {
        return true;
      }
      if key.value in seen {
        return !Suppresses(m);
      }
      if |order| >= WINDOW {
        var oldest := order[0];
        order := order[1..];
        seen := seen - {oldest};
      }
      order := order + [key.value];
      seen := seen + {key.value};
      return true;
    }

    /** Whether `Admit` would drop `m`, without recording it. */
    predicate Contains(m: Message)
      requires Valid()
      reads this
      ensures Contains(m) <==> Recognized(order, m)
    {
      Suppresses(m) && KeyOf(m).value in seen
    }
  }
}
