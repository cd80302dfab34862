/** The member lists as the store really keeps them: headers over shared arrays.
    Reading a group copies its header, not its array, so appending and filtering
    write into the very array the stored group and every earlier reader look at. */
module MemberSlices {
  import opened Domain
  import opened Sums
  import opened Rotation
  import opened Assembly

  /** A slice that starts at the beginning of its array. */
  datatype Slice = Slice(buf: array<Id>, len: nat)

  /** The array after the first i members have been looked at and kept of them kept. */
  ghost predicate Compacted(before: seq<Id>, now: seq<Id>, i: nat, kept: nat, user: Id) {
    && i <= |before|
    && kept == |Without(before[..i], user)|
    && now == Without(before[..i], user) + before[kept..]
  }

  /** Looking at the next member moves it to the end of the kept part or skips it. */
  lemma CompactNext(before: seq<Id>, now: seq<Id>, i: nat, kept: nat, user: Id)
    requires Compacted(before, now, i, kept, user) && i < |before|
    ensures |now| == |before| && kept <= i
    ensures if now[i] == user then Compacted(before, now, i + 1, kept, user)
            else Compacted(before, now[kept := now[i]], i + 1, kept + 1, user)
  {
    var w := Without(before[..i], user);
    assert before[..i + 1][..i] == before[..i];
    assert now[i] == before[i];
    if now[i] != user {
      assert now[kept := now[i]] == w + [before[i]] + before[kept + 1..];
    }
  }

  lemma CompactDone(before: seq<Id>, now: seq<Id>, n: nat, kept: nat, user: Id)
    requires Compacted(before, now, n, kept, user)
    ensures kept == |Without(before[..n], user)| <= n && now == Without(before[..n], user) + before[kept..]
  {
  }

  lemma CompactStart(before: seq<Id>, user: Id)
    ensures Compacted(before, before, 0, 0, user)
  {
  }

  method FilterInPlace(buf: array<Id>, n: nat, user: Id) returns (kept: nat)
    requires n <= buf.Length
    modifies buf
    ensures kept == |Without(old(buf[..n]), user)|
    ensures buf[..] == Without(old(buf[..n]), user) + old(buf[..])[kept..]
  {
    hide Compacted, Without;
    ghost var before := buf[..];
    CompactStart(before, user);
    kept := 0;
    for i := 0 to n
      invariant Compacted(before, buf[..], i, kept, user)
    {
      ghost var now := buf[..];
      CompactNext(before, now, i, kept, user);
      if buf[i] != user {
        buf[kept] := buf[i];
        assert buf[..] == now[kept := now[i]];
        kept := kept + 1;
      }
    }
    CompactDone(before, buf[..], n, kept, user);
    assert before[..n] == old(buf[..n]);
  }

  class RosterStore {
    var headers: map<Id, Slice>

    /** Lengths are in range and no two groups share an array. */
    ghost predicate Valid()
      reads this
    {
      && (forall g :: g in headers ==> headers[g].len <= headers[g].buf.Length)
      && (forall g, h :: g in headers && h in headers && g != h ==> headers[g].buf != headers[h].buf)
    }

    function Members(g: Id): seq<Id>
      requires g in headers && headers[g].len <= headers[g].buf.Length
      reads this, headers[g].buf
    {
      headers[g].buf[..headers[g].len]
    }

    constructor ()
      ensures Valid() && headers == map[]
    {
      headers := map[];
    }

    method Create(g: Id, organizer: Id)
      requires Valid() && g !in headers
      modifies this
      ensures Valid() && headers.Keys == old(headers.Keys) + {g}
      ensures Members(g) == [organizer]
      ensures forall h :: h in old(headers) ==> headers[h] == old(headers[h]) && Members(h) == old(Members(h))
    {
      var buf := new Id[1];
      buf[0] := organizer;
      headers := headers[g := Slice(buf, 1)];
      assert Members(g) == [organizer];
    }

    /** Appending writes past the end of the list when the array has room and moves to
        a larger array when it has not. Either way earlier readers see no change. */
    method AddMember(g: Id, user: Id, spare: nat)
      requires Valid() && g in headers
      modifies this, headers[g].buf
      ensures Valid() && headers.Keys == old(headers.Keys)
      ensures Members(g) == old(Members(g)) + [user]
      ensures old(headers[g]).buf[..old(headers[g]).len] == old(Members(g))
      ensures forall h :: h in old(headers) && h != g ==>
                headers[h] == old(headers[h]) && Members(h) == old(Members(h))
    {
      var s := headers[g];
      if s.len < s.buf.Length {
        s.buf[s.len] := user;
        headers := headers[g := Slice(s.buf, s.len + 1)];
      } else {
        var grown := new Id[s.len + 1 + spare];
        for i := 0 to s.len
          invariant forall j :: 0 <= j < i ==> grown[j] == s.buf[j]
          invariant unchanged(this) && unchanged(s.buf)
        {
          grown[i] := s.buf[i];
        }
        grown[s.len] := user;
        headers := headers[g := Slice(grown, s.len + 1)];
      }
      assert Members(g) == old(Members(g)) + [user];
    }

    /** Filtering in place compacts the kept members to the front of the same array.
        The stored list is right; whoever still holds an older header reads the kept
        members followed by whatever was left standing behind them. */
    method DropMember(g: Id, user: Id)
      requires Valid() && g in headers
      modifies this, headers[g].buf
      ensures Valid() && headers.Keys == old(headers.Keys)
      ensures Members(g) == Without(old(Members(g)), user)
      ensures headers[g].buf == old(headers[g]).buf
      ensures headers[g].buf[..] == Without(old(Members(g)), user) + old(headers[g].buf[..])[headers[g].len..]
      ensures forall h :: h in old(headers) && h != g ==>
                headers[h] == old(headers[h]) && Members(h) == old(Members(h))
    {
      var buf, n := headers[g].buf, headers[g].len;
      ghost var before := buf[..];
      var kept := FilterInPlace(buf, n, user);
      headers := headers[g := Slice(buf, kept)];
      assert before[..n] == old(Members(g));
      assert Members(g) == buf[..][..kept];
    }
  }

  // ----- what an older header shows after a departure -----

  /** What a reader who took the list ms before user left reads in it afterwards. */
  function StaleView(ms: seq<Id>, user: Id): seq<Id> {
    Without(ms, user) + ms[|Without(ms, user)|..]
  }

  /** The older view is unchanged exactly when the user stood nowhere but at its end. */
  lemma StaleViewUnchanged(ms: seq<Id>, user: Id)
    ensures StaleView(ms, user) == ms <==> user !in ms[..|Without(ms, user)|]
  {
    var kept := Without(ms, user);
    if user !in ms[..|kept|] {
      WithoutSplit(ms, |kept|, user);
      WithoutNothing(ms[..|kept|], user);
      assert ms == ms[..|kept|] + ms[|kept|..];
    } else {
      assert user !in kept;
      assert StaleView(ms, user)[..|kept|] == kept;
    }
  }

  lemma {:induction false} WithoutSplit(ms: seq<Id>, n: nat, user: Id)
    requires n <= |ms|
    ensures Without(ms[..n], user) <= Without(ms, user)
    decreases |ms|
  {
    if n == |ms| {
      assert ms[..n] == ms;
    } else {
      var init := ms[..|ms| - 1];
      WithoutSplit(init, n, user);
      assert init[..n] == ms[..n];
    }
  }

  /** When anybody but the last member of a repeat-free list leaves, an older view
      still has the old length, lacks the leaver and shows the last member twice. */
  lemma StaleViewRepeatsLast(ms: seq<Id>, user: Id)
    requires Distinct(ms) && user in ms && ms[|ms| - 1] != user
    ensures var view := StaleView(ms, user);
            && |view| == |ms| && user !in view
            && view[|ms| - 2] == view[|ms| - 1] == ms[|ms| - 1]
            && !Distinct(view)
  {
    WithoutRepeats(ms, user);
    var view, last := StaleView(ms, user), |ms| - 1;
    assert Without(ms, user) == Without(ms[..last], user) + [ms[last]];
    assert ms[last..] == [ms[last]];
    assert view[last - 1] == view[last];
  }
}
