/** The memory backend: one NUL-terminated text, cut from the front by whole lines to make room. */
module BufferBackends {
  import opened Wrappers

  datatype Policy = STOP_APPENDING | DELETE_OLDEST

  predicate IsSuffix(s: string, of: string) {
    |s| <= |of| && of[|of| - |s|..] == s
  }

  /** A text may be cut at its front, behind a newline, or at its end. */
  predicate IsCut(text: string, k: nat) {
    k <= |text| && (k == 0 || k == |text| || text[k - 1] == '\n')
  }

  function FirstNewline(text: string): (r: Option<nat>)
    ensures r.Some? ==> r.value < |text| && text[r.value] == '\n' && '\n' !in text[..r.value]
    ensures r.None? ==> '\n' !in text
  {
    if text == "" then None
    else if text[0] == '\n' then Some(0)
    else
      assert text == [text[0]] + text[1..];
      var rest := FirstNewline(text[1..]);
      if rest.None? then None
      else
        assert text[..rest.value + 1] == [text[0]] + text[1..][..rest.value];
        Some(rest.value + 1)
  }

  /** The text left when whole lines are dropped from the front until `room` characters hold it. */
  function Evicted(text: string, room: nat): string {
    if |text| <= room then text
    else
      var newline := FirstNewline(text);
      if newline.None? then "" else Evicted(text[newline.value + 1..], room)
  }

  lemma SuffixOfSuffix(a: string, b: string, c: string)
    requires IsSuffix(a, b) && IsSuffix(b, c)
    ensures IsSuffix(a, c)
  {
    assert c[|c| - |a|..] == c[|c| - |b|..][|b| - |a|..];
  }

  lemma NoCutBefore(text: string, m: nat, k: nat)
    requires FirstNewline(text) == Some(m) && IsCut(text, k) && 0 < k
    ensures m < k
  {
    assert forall i :: 0 <= i < m ==> text[i] == text[..m][i];
  }

  lemma CutBehind(text: string, n: nat, k: nat)
    requires 0 < n <= |text| && text[n - 1] == '\n'
    ensures n <= k ==> (IsCut(text, k) <==> IsCut(text[n..], k - n))
  {
  }

  lemma {:induction false} EvictedFits(text: string, room: nat)
    ensures |Evicted(text, room)| <= room && IsSuffix(Evicted(text, room), text)
    decreases |text|
  {
    if |text| > room {
      var newline := FirstNewline(text);
      if newline.Some? {
        var rest := text[newline.value + 1..];
        EvictedFits(rest, room);
        SuffixOfSuffix(Evicted(rest, room), rest, text);
      }
    }
  }

  lemma {:induction false} EvictedIsLongest(text: string, room: nat, k: nat)
    requires IsCut(text, k) && |text| - k <= room
    ensures |text| - k <= |Evicted(text, room)|
    decreases |text|
  {
    if |text| > room {
      var newline := FirstNewline(text);
      if newline.Some? {
        var n := newline.value + 1;
        NoCutBefore(text, newline.value, k);
        CutBehind(text, n, k);
        EvictedIsLongest(text[n..], room, k - n);
      }
    }
  }

  lemma {:induction false} EvictedIsCut(text: string, room: nat)
    ensures |Evicted(text, room)| <= |text| && IsCut(text, |text| - |Evicted(text, room)|)
    decreases |text|
  {
    if |text| > room {
      var newline := FirstNewline(text);
      if newline.Some? {
        var n := newline.value + 1;
        var rest := text[n..];
        EvictedIsCut(rest, room);
        var k := n + (|rest| - |Evicted(rest, room)|);
        CutBehind(text, n, k);
        assert Evicted(text, room) == Evicted(rest, room) && |text| - |Evicted(text, room)| == k;
      }
    }
  }

  /** Eviction keeps a suffix that fits and begins a line, and of those it keeps the longest. */
  lemma EvictedIsBest(text: string, room: nat)
    ensures var kept := Evicted(text, room);
      && |kept| <= room && IsSuffix(kept, text) && IsCut(text, |text| - |kept|)
      && forall k :: IsCut(text, k) && |text| - k <= room ==> |text| - k <= |kept|
  {
    EvictedFits(text, room);
    EvictedIsCut(text, room);
    forall k | IsCut(text, k) && |text| - k <= room ensures |text| - k <= |Evicted(text, room)| {
      EvictedIsLongest(text, room, k);
    }
  }

  class BufferBackend {
    var buffer: seq<char>           // empty, or the text and its NUL
    const maxSize: Option<nat>      // None: no limit
    const policy: Policy
    ghost var accepted: string      // all messages taken so far, one after the other

    ghost predicate Valid()
      reads this
    {
      && (buffer != [] ==> buffer[|buffer| - 1] == '\0')
      && IsSuffix(Text(), accepted)
      && (maxSize.Some? ==> |buffer| <= maxSize.value)
    }

    function Text(): string
      reads this`buffer
    {
      if buffer == [] then "" else buffer[..|buffer| - 1]
    }

    constructor (maxSize: Option<nat>, policy: Policy)
      ensures Valid() && buffer == [] && accepted == ""
    {
      this.maxSize, this.policy, buffer, accepted := maxSize, policy, [], "";
    }

    /** The text after a message; None when the message does not go in. */
    function Grown(str: string): Option<string>
      reads this`buffer
    {
      if str == "" then Some(Text())
      else
        var room := RoomText(|str|);
        if room.None? then None else Some(room.value + str)
    }

    /** The text that leaves room for `n` more characters and a NUL, where the policy can make it. */
    function RoomText(n: nat): Option<string>
      reads this`buffer
    {
      if maxSize.None? || |Text()| + n + 1 <= maxSize.value then Some(Text())
      else if policy == STOP_APPENDING || n + 1 > maxSize.value then None
      else Some(Evicted(Text(), maxSize.value - (n + 1)))
    }

    method Clear()
      requires Valid()
      modifies this`buffer
      ensures Valid() && buffer == []
    {
      buffer := [];
    }

    method Append(str: string)
      requires Valid()
      modifies this`buffer, this`accepted
      ensures Valid()
      ensures old(Grown(str)).None? ==> buffer == old(buffer) && accepted == old(accepted)
      ensures old(Grown(str)).Some? ==> Text() == old(Grown(str)).value && accepted == old(accepted) + str
      ensures old(Grown(str)).Some? && str == "" ==> buffer == old(buffer)
    {
      if str == "" {
        assert accepted + str == accepted;
        return;
      }
      var fits, pos := RoomFor(|str|);
      if fits {
        Put(str, pos);
      }
    }

    method RoomFor(n: nat) returns (fits: bool, pos: nat)
      requires Valid()
      modifies this`buffer
      ensures Valid() && pos == |Text()|
      ensures fits <==> old(RoomText(n)).Some?
      ensures fits ==> Text() == old(RoomText(n)).value && (maxSize.Some? ==> pos + n + 1 <= maxSize.value)
      ensures !fits ==> buffer == old(buffer)
    {
      pos := if |buffer| > 0 then |buffer| - 1 else 0;
      if maxSize.Some? && pos + n + 1 > maxSize.value {
        if policy == STOP_APPENDING {
          return false, pos;
        }
        if n + 1 > maxSize.value {
          return false, pos;
        }
        pos := MakeRoom(n);
      }
      fits := true;
    }

    /** Drops lines from the front until `n` more characters and a NUL fit. */
    method MakeRoom(n: nat) returns (pos: nat)
      requires Valid() && maxSize.Some? && n + 1 <= maxSize.value && |Text()| + n + 1 > maxSize.value
      modifies this`buffer
      ensures Valid() && pos == |Text()| && pos + n + 1 <= maxSize.value
      ensures Text() == Evicted(old(Text()), maxSize.value - (n + 1))
    {
      ghost var room, spec := maxSize.value - (n + 1), Evicted(Text(), maxSize.value - (n + 1));
      pos := |buffer| - 1;
      while pos + n + 1 > maxSize.value
        invariant Valid() && pos == |Text()| && Evicted(Text(), room) == spec
        decreases |buffer|
      {
        pos := DropLine();
      }
    }

    method DropLine() returns (pos: nat)
      requires Valid() && buffer != []
      modifies this`buffer
      ensures Valid() && pos == |Text()| && |buffer| < |old(buffer)|
      ensures Text() == var newline := FirstNewline(old(Text()));
                        if newline.None? then "" else old(Text())[newline.value + 1..]
    {
      ghost var text := Text();
      var newline := FirstNewline(buffer);
      NewlineInText(buffer);
      if newline.Some? {
        buffer := buffer[newline.value + 1..];
        assert Text() == text[newline.value + 1..];
        SuffixOfSuffix(Text(), text, accepted);
      } else {
        buffer := [];
      }
      pos := if |buffer| > 0 then |buffer| - 1 else 0;
    }

    method Put(str: string, pos: nat)
      requires Valid() && pos == |Text()|
      requires maxSize.Some? ==> pos + |str| + 1 <= maxSize.value
      modifies this`buffer, this`accepted
      ensures Valid() && accepted == old(accepted) + str
      ensures buffer == old(Text()) + str + "\0" && Text() == old(Text()) + str
    {
      SuffixGrows(Text(), accepted, str);
      buffer := buffer[..pos] + str + ['\0'];
      accepted := accepted + str;
    }
  }

  // What the two policies promise

  /** A message of `n` characters and the NUL go in behind a text of `length`. */
  predicate HasRoom(maxSize: Option<nat>, length: nat, n: nat) {
    maxSize.None? || length + n + 1 <= maxSize.value
  }

  /** STOP_APPENDING keeps every line it has: a message that does not fit changes nothing. */
  lemma StopKeepsText(b: BufferBackend, str: string)
    requires b.policy == STOP_APPENDING
    ensures HasRoom(b.maxSize, |b.Text()|, |str|) || str == "" ==> b.Grown(str) == Some(b.Text() + str)
    ensures !HasRoom(b.maxSize, |b.Text()|, |str|) && str != "" ==> b.Grown(str) == None
  {
    assert b.Text() + "" == b.Text();
  }

  /** DELETE_OLDEST takes every message that fits an empty buffer, and gives up for it the fewest of the
      oldest lines: what is kept is the longest part from a line's beginning that leaves room. */
  lemma DeleteOldestTakesWhatFits(b: BufferBackend, str: string) returns (kept: string)
    requires b.policy == DELETE_OLDEST
    ensures b.Grown(str).Some? <==> str == "" || HasRoom(b.maxSize, 0, |str|)
    ensures b.Grown(str).Some? ==>
              && b.Grown(str).value == kept + str
              && IsSuffix(kept, b.Text()) && IsCut(b.Text(), |b.Text()| - |kept|)
              && (str != "" ==> HasRoom(b.maxSize, |kept|, |str|))
              && forall k :: IsCut(b.Text(), k) && HasRoom(b.maxSize, |b.Text()| - k, |str|) ==> |b.Text()| - k <= |kept|
  {
    var text := b.Text();
    kept := text;
    assert text[|text| - |text|..] == text;
    if str == "" {
      assert text + "" == text;
    } else if !HasRoom(b.maxSize, |text|, |str|) && HasRoom(b.maxSize, 0, |str|) {
      kept := Evicted(text, b.maxSize.value - (|str| + 1));
      EvictedIsBest(text, b.maxSize.value - (|str| + 1));
    }
  }

  lemma SuffixGrows(s: string, of: string, more: string)
    requires IsSuffix(s, of)
    ensures IsSuffix(s + more, of + more)
  {
  }

  /** The terminating NUL is no newline. */
  lemma {:induction false} NewlineInText(buffer: string)
    requires buffer != [] && buffer[|buffer| - 1] == '\0'
    ensures FirstNewline(buffer) == FirstNewline(buffer[..|buffer| - 1])
  {
    if |buffer| > 1 {
      NewlineInText(buffer[1..]);
      assert buffer[1..][..|buffer| - 2] == buffer[..|buffer| - 1][1..];
    } else {
      assert buffer[1..] == "";
    }
  }
}
