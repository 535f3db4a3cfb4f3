/** The string handling of the audit checker: Python's strip and the "key: value" split. */
module AuditText {
  import opened Wrappers

  const SPACES: string := "\t\n\U{b}\U{c}\r\U{1c}\U{1d}\U{1e}\U{1f} \U{85}\U{a0}\U{1680}\U{2028}\U{2029}\U{202f}\U{205f}\U{3000}"

  /** What str.strip removes. */
  predicate IsSpace(c: char)
  {
    c in SPACES || '\U{2000}' <= c <= '\U{200a}'
  }

  /** By code point: the ASCII controls that separate, the space, and Unicode's white space. */
  lemma SpaceExactly(c: char)
    ensures IsSpace(c) <==>
            || 0x9 <= c as int <= 0xd || 0x1c <= c as int <= 0x20 || c as int == 0x85 || c as int == 0xa0 || c as int == 0x1680
            || 0x2000 <= c as int <= 0x200a || 0x2028 <= c as int <= 0x2029 || c as int == 0x202f || c as int == 0x205f || c as int == 0x3000
  {
  }

  predicate Blank(s: string)
  {
    forall k :: 0 <= k < |s| ==> IsSpace(s[k])
  }

  function StripLeft(s: string): string
  {
    if s != [] && IsSpace(s[0]) then StripLeft(s[1..]) else s
  }

  function StripRight(s: string): string
  {
    if s != [] && IsSpace(s[|s| - 1]) then StripRight(s[..|s| - 1]) else s
  }

  function Strip(s: string): string
  {
    StripRight(StripLeft(s))
  }

  /** Neither end is a space. */
  predicate Trimmed(s: string)
  {
    s != [] ==> !IsSpace(s[0]) && !IsSpace(s[|s| - 1])
  }

  lemma {:induction false} StripLeftSplits(s: string) returns (n: nat)
    ensures n <= |s| && StripLeft(s) == s[n..] && Blank(s[..n])
    ensures n < |s| ==> !IsSpace(s[n])
  {
    hide IsSpace;
    if s != [] && IsSpace(s[0]) {
      var m := StripLeftSplits(s[1..]);
      n := m + 1;
      assert s[1..][m..] == s[n..];
      forall k | 0 <= k < |s[..n]| ensures IsSpace(s[..n][k]) {
        assert k > 0 ==> s[1..][..m][k - 1] == s[k];
      }
    } else {
      n := 0;
    }
  }

  lemma {:induction false} StripRightSplits(s: string) returns (n: nat)
    ensures n <= |s| && StripRight(s) == s[..n] && Blank(s[n..])
    ensures n > 0 ==> !IsSpace(s[n - 1])
  {
    hide IsSpace;
    if s != [] && IsSpace(s[|s| - 1]) {
      var init := s[..|s| - 1];
      n := StripRightSplits(init);
      assert init[..n] == s[..n];
      forall k | 0 <= k < |s[n..]| ensures IsSpace(s[n..][k]) {
        assert k < |init| - n ==> init[n..][k] == s[n + k];
      }
    } else {
      n := |s|;
    }
  }

  lemma {:induction false} StripLeftPadded(left: string, s: string)
    requires Blank(left) && (s != [] ==> !IsSpace(s[0]))
    ensures StripLeft(left + s) == s
    decreases |left|
  {
    hide IsSpace;
    if left == [] {
      assert left + s == s;
    } else {
      assert (left + s)[1..] == left[1..] + s;
      StripLeftPadded(left[1..], s);
    }
  }

  lemma {:induction false} StripRightPadded(s: string, right: string)
    requires Blank(right) && (s != [] ==> !IsSpace(s[|s| - 1]))
    ensures StripRight(s + right) == s
    decreases |right|
  {
    hide IsSpace;
    if right == [] {
      assert s + right == s;
    } else {
      var init := right[..|right| - 1];
      assert (s + right)[..|s + right| - 1] == s + init;
      StripRightPadded(s, init);
    }
  }

  lemma {:induction false} StripLeftBlank(s: string)
    requires Blank(s)
    ensures StripLeft(s) == []
  {
    if s != [] {
      StripLeftBlank(s[1..]);
    }
  }

  /** Strip undoes any padding, and a stripped string is what is left between its padding. */
  lemma StripPadded(left: string, s: string, right: string)
    requires Blank(left) && Blank(right) && Trimmed(s)
    ensures Strip(left + s + right) == s
  {
    hide IsSpace;
    assert left + s + right == left + (s + right);
    if s == [] {
      assert left + s + right == left + right;
      StripLeftBlank(left + right);
    } else {
      StripLeftPadded(left, s + right);
      StripRightPadded(s, right);
    }
  }

  lemma StripIsTrimmed(s: string)
    ensures Trimmed(Strip(s))
    ensures exists left, right :: Blank(left) && Blank(right) && s == left + Strip(s) + right
  {
    hide IsSpace;
    var n := StripLeftSplits(s);
    var t := StripLeft(s);
    var m := StripRightSplits(t);
    var u := StripRight(t);
    assert s == s[..n] + t && t == u + t[m..];
    assert s == s[..n] + u + t[m..];
  }

  /** Blanks before a prefix go, the prefix stays. */
  lemma StripKeepsPrefix(left: string, prefix: string, rest: string)
    requires Blank(left) && prefix != [] && Trimmed(prefix)
    ensures prefix <= Strip(left + prefix + rest)
  {
    hide IsSpace;
    assert left + prefix + rest == left + (prefix + rest);
    assert (prefix + rest)[0] == prefix[0];
    StripLeftPadded(left, prefix + rest);
    var n := StripRightSplits(prefix + rest);
    var at := |prefix| - 1;
    assert (prefix + rest)[at] == prefix[at];
    forall k | n <= k < |prefix + rest| ensures IsSpace((prefix + rest)[k]) {
      assert (prefix + rest)[n..][k - n] == (prefix + rest)[k];
    }
  }

  lemma StripsAwayExactly(s: string)
    ensures Strip(s) == [] <==> Blank(s)
  {
    hide IsSpace, Strip;
    StripIsTrimmed(s);
    var left, right :| Blank(left) && Blank(right) && s == left + Strip(s) + right;
    if Strip(s) == [] {
      assert s == left + right;
    } else {
      assert s[|left|] == Strip(s)[0];
    }
  }

  lemma StripTrimmed(s: string)
    requires Trimmed(s)
    ensures Strip(s) == s
  {
    StripPadded([], s, []);
    assert [] + s + [] == s;
  }

  function FirstColon(s: string): (k: nat)
    ensures k <= |s| && ':' !in s[..k] && (k < |s| ==> s[k] == ':')
  {
    if s == [] || s[0] == ':' then 0
    else
      assert forall k :: 0 <= k <= |s| - 1 ==> s[..k + 1] == [s[0]] + s[1..][..k];
      1 + FirstColon(s[1..])
  }

  /** Drops one pair of matching quotes; a lone quote character counts as a pair. */
  function Unquote(v: string): string
  {
    if v != [] && (v[0] == v[|v| - 1] == '"' || v[0] == v[|v| - 1] == '\'') then
      if |v| == 1 then [] else v[1..|v| - 1]
    else v
  }

  datatype Pair = Pair(key: string, value: string)

  /** split_kv; None is the ValueError of a line without a colon. */
  function SplitKV(line: string): Option<Pair>
  {
    var k := FirstColon(line);
    if k == |line| then None else Some(Pair(Strip(line[..k]), Unquote(Strip(line[k + 1..]))))
  }

  lemma SplitFailsExactly(line: string)
    ensures SplitKV(line).None? <==> ':' !in line
  {
    var k := FirstColon(line);
    if k == |line| {
      assert line[..k] == line;
    } else {
      assert line[k] == ':';
    }
  }

  lemma FirstColonAt(key: string, rest: string)
    requires ':' !in key
    ensures FirstColon(key + ":" + rest) == |key|
  {
    var s := key + ":" + rest;
    assert s[|key|] == ':' && s[..|key|] == key;
    assert forall x :: 0 <= x < |key| ==> s[x] == key[x];
  }

  /** Printable ASCII but the blank itself is no space. */
  lemma GraphIsNoSpace(c: char)
    requires '!' <= c <= '~'
    ensures !IsSpace(c)
  {
    SpaceExactly(c);
  }

  lemma Punctuation()
    ensures IsSpace(' ') && !IsSpace('"') && !IsSpace('\'') && !IsSpace(':') && !IsSpace('-') && !IsSpace('#')
  {
    hide IsSpace;
    SpaceExactly(' ');
    GraphIsNoSpace('"');
    GraphIsNoSpace('\'');
    GraphIsNoSpace(':');
    GraphIsNoSpace('-');
    GraphIsNoSpace('#');
  }

  lemma Letters()
    ensures !IsSpace('h') && !IsSpace('l') && !IsSpace('w')
  {
    hide IsSpace;
    GraphIsNoSpace('h');
    GraphIsNoSpace('l');
    GraphIsNoSpace('w');
  }

  predicate QuoteMark(c: char)
  {
    c == '"' || c == '\''
  }

  /** The text begins and ends with the same quote mark. */
  predicate Quoted(v: string)
  {
    v != [] && v[0] == v[|v| - 1] && QuoteMark(v[0])
  }

  lemma UnquoteQuoted(q: char, value: string)
    requires QuoteMark(q)
    ensures Unquote([q] + value + [q]) == value && Unquote([q]) == []
  {
    var quoted := [q] + value + [q];
    assert quoted[0] == q && quoted[|quoted| - 1] == q && quoted[1..|quoted| - 1] == value;
  }

  lemma UnquoteBare(v: string)
    requires !Quoted(v)
    ensures Unquote(v) == v
  {
  }

  /** Blanks around the key and before the value do not matter. */
  lemma SplitText(key: string, pad: string, gap: string, text: string)
    requires ':' !in key && Trimmed(key) && Trimmed(text) && Blank(pad) && Blank(gap)
    ensures SplitKV(key + pad + ":" + gap + text) == Some(Pair(key, Unquote(text)))
  {
    hide IsSpace, Strip, FirstColon, Unquote;
    var line := key + pad + ":" + gap + text;
    assert line == (key + pad) + ":" + (gap + text);
    assert ':' !in pad by {
      Punctuation();
    }
    FirstColonAt(key + pad, gap + text);
    assert line[..|key + pad|] == key + pad && line[|key + pad| + 1..] == gap + text;
    StripPadded([], key, pad);
    assert [] + key + pad == key + pad;
    StripPadded(gap, text, []);
    assert gap + text + [] == gap + text;
  }

  /** A value that is not quoted comes back as it is. */
  lemma SplitBare(key: string, pad: string, gap: string, value: string)
    requires ':' !in key && Trimmed(key) && Trimmed(value) && !Quoted(value) && Blank(pad) && Blank(gap)
    ensures SplitKV(key + pad + ":" + gap + value) == Some(Pair(key, value))
  {
    hide *;
    SplitText(key, pad, gap, value);
    UnquoteBare(value);
  }

  /** Any value in quotes of either kind comes back without them, whatever characters it has. */
  lemma SplitQuoted(key: string, pad: string, gap: string, q: char, value: string)
    requires ':' !in key && Trimmed(key) && QuoteMark(q) && Blank(pad) && Blank(gap)
    ensures SplitKV(key + pad + ":" + gap + ([q] + value + [q])) == Some(Pair(key, value))
  {
    hide Strip, FirstColon, Unquote, IsSpace;
    var quoted := [q] + value + [q];
    Punctuation();
    assert quoted[0] == q && quoted[|quoted| - 1] == q;
    assert Trimmed(quoted);
    SplitText(key, pad, gap, quoted);
    UnquoteQuoted(q, value);
  }
}
