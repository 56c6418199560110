/** The body of one part of a multipart message, handed on as it arrives
    (MultipartFormDataParser in src/httplib/httplib.h, state 3; section 5.1.1 of RFC 2046). */
module MultipartBody {
  import opened Words

  // ---- what the body is ----

  predicate Occurs(x: seq<byte>, d: seq<byte>, i: nat) {
    i + |d| <= |x| && x[i..i + |d|] == d
  }

  predicate NowhereBefore(x: seq<byte>, d: seq<byte>, n: nat) {
    forall i: nat :: i < n ==> !Occurs(x, d, i)
  }

  /** Where the delimiter begins for the first time, or the end if it does not occur. */
  predicate IsFirst(x: seq<byte>, d: seq<byte>, r: nat) {
    && r <= |x| && NowhereBefore(x, d, r)
    && (r < |x| ==> Occurs(x, d, r))
    && (r == |x| ==> NowhereBefore(x, d, |x| + 1) || d == [])
  }

  /** How much of the body can be handed on once the bytes x have arrived: all of it up to the
      delimiter, or all but the last |d| bytes, which may be the delimiter's. */
  predicate Delivered(x: seq<byte>, d: seq<byte>, content: seq<byte>, found: bool) {
    if found then exists f: nat :: f < |x| && IsFirst(x, d, f) && content == x[..f]
    else NowhereBefore(x, d, |x|) && content == x[..if |x| < |d| then 0 else |x| - |d|]
  }

  /** The content and whether it is complete depend on the bytes alone, not on how they were cut. */
  lemma DeliveredIsUnique(x: seq<byte>, d: seq<byte>, a: seq<byte>, foundA: bool, b: seq<byte>, foundB: bool)
    requires |d| > 0 && Delivered(x, d, a, foundA) && Delivered(x, d, b, foundB)
    ensures a == b && foundA == foundB
  {
    if foundA {
      var f: nat :| f < |x| && IsFirst(x, d, f) && a == x[..f];
      assert Occurs(x, d, f);
      if foundB {
        var g: nat :| g < |x| && IsFirst(x, d, g) && b == x[..g];
        assert Occurs(x, d, g);
      }
    } else {
      assert forall g: nat :: g < |x| ==> !Occurs(x, d, g);
    }
  }

  lemma OccursIn(x: seq<byte>, y: seq<byte>, d: seq<byte>, i: nat)
    requires |d| > 0
    ensures i + |d| <= |x| ==> (Occurs(x + y, d, i) <==> Occurs(x, d, i))
    ensures |x| <= i ==> (Occurs(x + y, d, i) <==> Occurs(y, d, i - |x|))
  {
    if i + |d| <= |x| {
      assert (x + y)[i..i + |d|] == x[i..i + |d|];
    }
    if |x| <= i && i + |d| <= |x + y| {
      assert (x + y)[i..i + |d|] == y[i - |x|..i - |x| + |d|];
    }
  }

  // ---- the parser ----

  class Parser {
    const delimiter: seq<byte>
    var state: nat
    var buf: seq<byte>
    var spos: nat
    var epos: nat
    var content: seq<byte>

    ghost predicate Valid()
      reads this
    {
      spos <= epos <= |buf| && |delimiter| > 0
    }

    /** The unread part of the buffer. */
    ghost function View(): seq<byte>
      reads this
      requires Valid()
    {
      buf[spos..epos]
    }

    /** The parser has handed on what it could of the bytes x. */
    ghost predicate HasRead(x: seq<byte>)
      reads this
    {
      && Valid() && (state == 3 || state == 4)
      && Delivered(x, delimiter, content, state == 4)
      && (if state == 3 then content + View() == x else content + delimiter + View() == x)
    }

    /** All of the bytes x are handed on or still in the buffer, and no delimiter begins in what has
        been handed on: how a body is entered, with whatever the headers left, and how it goes on. */
    ghost predicate Ongoing(x: seq<byte>)
      reads this
    {
      && Valid() && state == 3 && content + View() == x
      && NowhereBefore(x, delimiter, |content|) && (|View()| < |delimiter| ==> content == [])
    }

    constructor (delimiter: seq<byte>)
      requires |delimiter| > 0
      ensures HasRead([]) && state == 3 && this.delimiter == delimiter
    {
      this.delimiter := delimiter;
      state, buf, spos, epos, content := 3, [], 0, 0, [];
    }

    method StartWith(at: nat, s: seq<byte>) returns (yes: bool)
      requires Valid() && spos <= at <= epos
      ensures yes == Occurs(View(), s, at - spos)
    {
      if epos - at < |s| {
        return false;
      }
      Slices(buf, spos, epos, at - spos);
      ghost var here := View()[at - spos..at - spos + |s|];
      assert forall k: nat :: k < |s| ==> here[k] == buf[at + k];
      var i := 0;
      while i < |s|
        invariant i <= |s| && forall k: nat :: k < i ==> here[k] == s[k]
      {
        if buf[at + i] != s[i] {
          assert here[i] != s[i];
          return false;
        }
        i := i + 1;
      }
      return true;
    }

    /** buf_find returns the first full occurrence, or the size of what is unread. */
    method Find(s: seq<byte>) returns (r: nat)
      requires Valid() && |s| > 0
      ensures IsFirst(View(), s, r)
    {
      var off := spos;
      while off < epos
        invariant spos <= off <= epos
        invariant NowhereBefore(View(), s, off - spos)
      {
        var pos := off;
        while pos < epos && buf[pos] != s[0]
          invariant off <= pos <= epos
          invariant NowhereBefore(View(), s, pos - spos)
        {
          FirstByteDiffers(View(), s, pos - spos);
          pos := pos + 1;
        }
        if pos == epos || |s| > epos - pos {
          NoRoom(View(), s, pos - spos);
          return epos - spos;
        }
        var here := StartWith(pos, s);
        if here {
          return pos - spos;
        }
        off := pos + 1;
      }
      NoRoom(View(), s, epos - spos);
      return epos - spos;
    }

    method Compact()
      requires Valid()
      modifies this`buf, this`spos, this`epos
      ensures Valid() && spos == 0 && View() == old(View())
    {
      var remaining := epos - spos;
      ghost var was := buf;
      if remaining > 0 && spos > 0 {
        for i := 0 to remaining
          invariant |buf| == |was| && spos == old(spos) && epos == old(epos)
          invariant forall k :: 0 <= k < i ==> buf[k] == was[spos + k]
          invariant forall k :: i <= k < |was| ==> buf[k] == was[k]
        {
          buf := buf[i := buf[spos + i]];
        }
      }
      spos, epos := 0, remaining;
    }

    /** buf_append moves what is unread to the front and puts the data after it. */
    method Append(data: seq<byte>)
      requires Valid()
      modifies this`buf, this`spos, this`epos
      ensures Valid() && View() == old(View()) + data
    {
      Compact();
      ghost var unread := View();
      if epos + |data| > |buf| {
        buf := buf + seq(epos + |data| - |buf|, i => 0);
      }
      assert buf[..epos] == unread;
      CopyIn(data);
    }

    method CopyIn(data: seq<byte>)
      requires Valid() && spos == 0 && epos + |data| <= |buf|
      modifies this`buf, this`epos
      ensures Valid() && View() == old(View()) + data
    {
      ghost var was := buf;
      var end := epos;
      for i := 0 to |data|
        invariant |buf| == |was| && epos == end
        invariant forall k: nat :: k < end ==> buf[k] == was[k]
        invariant forall k: nat :: k < i ==> buf[end + k] == data[k]
      {
        buf := buf[end + i := data[i]];
      }
      epos := end + |data|;
      Halves(buf, was[..end], data);
    }

    method Erase(n: nat)
      requires Valid() && n <= epos - spos
      modifies this`spos
      ensures Valid() && View() == old(View())[n..]
    {
      Slices(buf, spos, epos, n);
      spos := spos + n;
    }

    /** Handing bytes to the content callback, and dropping them and the next skip bytes. */
    method HandOn(n: nat, skip: nat)
      requires Valid() && n + skip <= epos - spos
      modifies this`content, this`spos
      ensures Valid() && content == old(content) + old(View())[..n] && View() == old(View())[n + skip..]
    {
      Slices(buf, spos, epos, n);
      content := content + buf[spos..spos + n];
      Erase(n + skip);
    }

    /** One look at the body. accept is what the content callback answers. */
    method Scan(accept: bool, ghost x: seq<byte>) returns (ok: bool)
      requires Ongoing(x)
      modifies this`content, this`spos, this`state
      ensures Valid() && (!ok ==> !accept && state == 3 && content == old(content) && content + View() == x)
      ensures ok ==> HasRead(x)
    {
      hide Delivered, IsFirst, NowhereBefore;
      var size := epos - spos;
      if |delimiter| > size {
        TooShort(x, delimiter, View());
        return true;
      }
      var pos := Find(delimiter);
      FirstIsBounded(View(), delimiter, pos);
      if pos < size {
        if !accept {
          return false;
        }
        FoundInView(x, delimiter, content, View(), pos);
        DelimiterFollows(content, View(), delimiter, pos);
        HandOn(pos, |delimiter|);
        state := 4;
        return true;
      }
      NotInView(x, delimiter, content, View());
      var len := size - |delimiter|;
      Regroups(content, View()[..len], View()[len..]);
      Slices(View(), 0, size, len);
      if len > 0 {
        if !accept {
          return false;
        }
        HandOn(len, 0);
      } else {
        NothingHandedOn(content, View());
      }
      return true;
    }

    /** More bytes arrive while the body is read. */
    method ParseBody(data: seq<byte>, accept: bool, ghost x: seq<byte>) returns (ok: bool)
      requires HasRead(x) && state == 3
      modifies this
      ensures Valid() && (!ok ==> !accept && state == 3 && content == old(content) && content + View() == x + data)
      ensures ok ==> HasRead(x + data)
    {
      hide Delivered, NowhereBefore;
      Regroups(content, View(), data);
      GoesOn(x, data, delimiter, content, View());
      Append(data);
      ok := Scan(accept, x + data);
    }

    /** From the moment the body is entered, whatever is in the buffer then and however the rest is cut,
        the content handed on is that of the whole: everything before the first delimiter, or all that
        cannot belong to one. */
    method ParseChunks(chunks: seq<seq<byte>>) returns (ghost read: seq<byte>)
      requires Valid() && state == 3 && content == []
      modifies this
      ensures read <= old(View()) + Joined(chunks) && (state == 3 ==> read == old(View()) + Joined(chunks))
      ensures HasRead(read) && Delivered(old(View()) + Joined(chunks), delimiter, content, state == 4)
    {
      ghost var start := View();
      assert [] + start == start;
      read := start;
      var ok := Scan(true, start);
      var i := 0;
      assert chunks[..0] == [] && start + Joined(chunks[..0]) == start;
      while i < |chunks| && state == 3
        invariant 0 <= i <= |chunks| && HasRead(read) && read == start + Joined(chunks[..i])
      {
        ok := ParseBody(chunks[i], true, read);
        read := read + chunks[i];
        assert chunks[..i + 1][..i] == chunks[..i];
        Regroups(start, Joined(chunks[..i]), chunks[i]);
        i := i + 1;
      }
      JoinedSplits(chunks, i);
      assert i == |chunks| ==> chunks[..i] == chunks;
      ghost var whole := start + Joined(chunks);
      assert read <= whole && read + whole[|read|..] == whole;
      if state == 4 {
        FoundStays(read, whole[|read|..], delimiter, content);
      }
    }
  }

  lemma Regroups(a: seq<byte>, b: seq<byte>, c: seq<byte>)
    ensures (a + b) + c == a + (b + c)
  {
  }

  lemma NothingHandedOn(content: seq<byte>, view: seq<byte>)
    ensures content + view[..0] == content
  {
  }

  lemma Halves(x: seq<byte>, a: seq<byte>, b: seq<byte>)
    requires |a| + |b| <= |x|
    requires forall k: nat :: k < |a| ==> x[k] == a[k]
    requires forall k: nat :: k < |b| ==> x[|a| + k] == b[k]
    ensures x[0..|a| + |b|] == a + b
  {
  }

  lemma Slices(x: seq<byte>, i: nat, j: nat, n: nat)
    requires i + n <= j <= |x|
    ensures x[i + n..j] == x[i..j][n..] && x[i..i + n] == x[i..j][..n]
  {
  }

  function Joined(chunks: seq<seq<byte>>): seq<byte> {
    if chunks == [] then [] else Joined(chunks[..|chunks| - 1]) + chunks[|chunks| - 1]
  }

  lemma {:induction false} JoinedSplits(chunks: seq<seq<byte>>, i: nat)
    requires i <= |chunks|
    ensures Joined(chunks[..i]) <= Joined(chunks)
    decreases |chunks|
  {
    if i < |chunks| {
      JoinedSplits(chunks[..|chunks| - 1], i);
      assert chunks[..|chunks| - 1][..i] == chunks[..i];
    } else {
      assert chunks[..i] == chunks;
    }
  }

  lemma FirstByteDiffers(x: seq<byte>, s: seq<byte>, i: nat)
    requires i < |x| && |s| > 0 && x[i] != s[0]
    ensures !Occurs(x, s, i)
  {
    if i + |s| <= |x| {
      assert x[i..i + |s|][0] == x[i];
    }
  }

  lemma FirstIsBounded(x: seq<byte>, d: seq<byte>, r: nat)
    requires IsFirst(x, d, r) && |d| > 0
    ensures r <= |x| && (r < |x| ==> r + |d| <= |x|)
  {
  }

  lemma NoRoom(x: seq<byte>, s: seq<byte>, n: nat)
    requires NowhereBefore(x, s, n) && |s| > 0 && n + |s| > |x|
    ensures IsFirst(x, s, |x|)
  {
  }

  lemma TooShort(x: seq<byte>, d: seq<byte>, view: seq<byte>)
    requires |d| > 0 && x == view && |view| < |d|
    ensures Delivered(x, d, [], false)
  {
  }

  lemma DelimiterFollows(content: seq<byte>, view: seq<byte>, d: seq<byte>, pos: nat)
    requires pos + |d| <= |view| && Occurs(view, d, pos)
    ensures (content + view[..pos]) + d + view[pos + |d|..] == content + view
  {
    assert view == view[..pos] + view[pos..pos + |d|] + view[pos + |d|..];
  }

  /** What has been handed on can go on being the beginning of the content. */
  lemma GoesOn(x: seq<byte>, data: seq<byte>, d: seq<byte>, content: seq<byte>, view: seq<byte>)
    requires |d| > 0 && Delivered(x, d, content, false) && content + view == x
    ensures NowhereBefore(x + data, d, |content|) && (|view + data| < |d| ==> content == [])
  {
    forall i: nat | i < |content| ensures !Occurs(x + data, d, i) {
      OccursIn(x, data, d, i);
    }
  }

  /** No delimiter begins in what has been handed on. */
  lemma OnlyInView(x: seq<byte>, d: seq<byte>, content: seq<byte>, view: seq<byte>, i: nat)
    requires |d| > 0 && content + view == x && NowhereBefore(x, d, |content|)
    ensures Occurs(x, d, i) <==> |content| <= i && Occurs(view, d, i - |content|)
  {
    OccursIn(content, view, d, i);
  }

  lemma FoundInView(x: seq<byte>, d: seq<byte>, content: seq<byte>, view: seq<byte>, pos: nat)
    requires |d| > 0 && content + view == x && NowhereBefore(x, d, |content|) && pos < |view| && IsFirst(view, d, pos)
    ensures Delivered(x, d, content + view[..pos], true) && Occurs(view, d, pos)
  {
    var f := |content| + pos;
    forall i: nat | i < f ensures !Occurs(x, d, i) {
      OnlyInView(x, d, content, view, i);
    }
    OnlyInView(x, d, content, view, f);
    assert IsFirst(x, d, f) && content + view[..pos] == x[..f];
  }

  lemma NotInView(x: seq<byte>, d: seq<byte>, content: seq<byte>, view: seq<byte>)
    requires |d| > 0 && content + view == x && NowhereBefore(x, d, |content|) && IsFirst(view, d, |view|)
    requires |d| <= |view|
    ensures Delivered(x, d, content + view[..|view| - |d|], false)
  {
    forall i: nat | i < |x| ensures !Occurs(x, d, i) {
      OnlyInView(x, d, content, view, i);
    }
  }

  lemma FoundStays(x: seq<byte>, data: seq<byte>, d: seq<byte>, content: seq<byte>)
    requires |d| > 0 && Delivered(x, d, content, true)
    ensures Delivered(x + data, d, content, true)
  {
    var f: nat :| f < |x| && IsFirst(x, d, f) && content == x[..f];
    forall i: nat | i <= f ensures Occurs(x + data, d, i) <==> i == f {
      OccursIn(x, data, d, i);
      assert Occurs(x, d, f);
    }
    assert IsFirst(x + data, d, f) && content == (x + data)[..f];
  }
}
