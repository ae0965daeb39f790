/** Names compared the way IRC servers compare them (section 2.2 of RFC 1459
    and section 2.2 of RFC 2812). */
module Names {

  datatype CaseMapping = Ascii | Rfc1459Strict | Rfc1459

  function AsciiLower(c: char): char {
    if 'A' <= c <= 'Z' then ((c as int) + 32) as char else c
  }

  function FoldChar(m: CaseMapping, c: char): char {
    if m.Ascii? then AsciiLower(c)
    else if c == '[' then '{'
    else if c == ']' then '}'
    else if c == '\\' then '|'
    else if m.Rfc1459? && c == '~' then '^'
    else AsciiLower(c)
  }

  /** `name` folded for use as a key. */
  function Fold(m: CaseMapping, name: string): (key: string)
    ensures |key| == |name|
  {
    seq(|name|, i requires 0 <= i < |name| => FoldChar(m, name[i]))
  }

  /** Whether two names are the same under this mapping. */
  predicate Same(m: CaseMapping, left: string, right: string) {
    Fold(m, left) == Fold(m, right)
  }

  /** Nicknames are always compared with RFC 1459. */
  function NicknameKey(nickname: string): (key: string)
    ensures |key| == |nickname|
  {
    Fold(Rfc1459, nickname)
  }

  function ToAsciiLower(name: string): (r: string)
    ensures |r| == |name|
  {
    Fold(Ascii, name)
  }

  /** What the ASCII mapping merges, every mapping merges. */
  lemma AsciiMergesLeast(m: CaseMapping, a: string, b: string)
    requires Same(Ascii, a, b)
    ensures Same(m, a, b)
  {
    forall i | 0 <= i < |a|
      ensures FoldChar(m, a[i]) == FoldChar(m, b[i])
    {
      assert Fold(Ascii, a)[i] == Fold(Ascii, b)[i];
    }
  }

  /** The keys of the nicknames a member list holds. */
  function RosterKeys(members: seq<string>): set<string> {
    set m | m in members :: NicknameKey(WithoutRank(m))
  }

  /** A roster entry without its rank prefixes. */
  function WithoutRank(member: string): string {
    if member != [] && member[0] in {'~', '&', '@', '%', '+'} then WithoutRank(member[1..]) else member
  }

  /** A nickname comes back under any rank signs in front of it. */
  lemma {:induction false} RankStripped(signs: string, nickname: string)
    requires forall i :: 0 <= i < |signs| ==> signs[i] in {'~', '&', '@', '%', '+'}
    requires nickname != "" ==> nickname[0] !in {'~', '&', '@', '%', '+'}
    ensures WithoutRank(signs + nickname) == nickname
  {
    if signs != "" {
      RankStripped(signs[1..], nickname);
      assert (signs + nickname)[1..] == signs[1..] + nickname;
    } else {
      assert signs + nickname == nickname;
    }
  }

  /** Two names are the same when they are as long and agree at each place:
      in the character, but for the case of a letter of the ASCII alphabet
      and, unless the mapping is ASCII, of the four that Scandinavian
      alphabets put in the place of a letter. */
  lemma SameMeans(m: CaseMapping, a: string, b: string)
    ensures Same(m, a, b) <==> |a| == |b| && forall i :: 0 <= i < |a| ==> Alike(m, a[i], b[i])
  {
    hide FoldChar, Alike;
    forall i | 0 <= i < |a| && i < |b|
      ensures Fold(m, a)[i] == Fold(m, b)[i] <==> Alike(m, a[i], b[i])
    {
      FoldedAlike(m, a[i], b[i]);
    }
  }

  lemma FoldedAlike(m: CaseMapping, x: char, y: char)
    ensures FoldChar(m, x) == FoldChar(m, y) <==> Alike(m, x, y)
  {
  }

  ghost predicate Alike(m: CaseMapping, x: char, y: char) {
    x == y || IsCapitalOf(m, x, y) || IsCapitalOf(m, y, x)
  }

  ghost predicate IsCapitalOf(m: CaseMapping, x: char, y: char) {
    || ('A' <= x <= 'Z' && y as int - x as int == 'a' as int - 'A' as int)
    || (!m.Ascii? && (x, y) in {('[', '{'), (']', '}'), ('\\', '|')})
    || (m.Rfc1459? && (x, y) == ('~', '^'))
  }
}
