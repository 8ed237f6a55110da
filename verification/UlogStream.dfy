/**
 What the sender means to transmit: a header, a list of messages, and how their bytes are cut into chunks.
 Positions count body bytes, that is, bytes after the header.
 */
module UlogStream {
  import opened Bytes
  import opened UlogFormat
  import opened UlogReceiver

  datatype Stream = Stream(
    header: seq<byte>,
    messages: seq<seq<byte>>,
    cuts: seq<nat>,        // chunk i holds the body bytes from cuts[i] up to cuts[i + 1]
    offsets: seq<byte>)    // offset of the first message starting in chunk i, or 255
  {
    function Body(): seq<byte> {
      Flat(messages)
    }

    /** Where message k starts; also where message k - 1 ends. */
    function Bound(k: nat): nat
      requires k <= |messages|
    {
      |Flat(messages[..k])|
    }

    function Chunks(): nat
      requires |cuts| > 0
    {
      |cuts| - 1
    }

    predicate StartsIn(k: nat, i: nat)
      requires k < |messages| && i + 1 < |cuts|
    {
      cuts[i] <= Bound(k) < cuts[i + 1]
    }

    ghost predicate Truthful(i: nat)
      requires i + 1 < |cuts| && i < |offsets|
    {
      if offsets[i] == NO_MESSAGE_START then
        forall k: nat :: k < |messages| ==> !StartsIn(k, i)
      else
        exists k: nat :: k < |messages| && StartsFirst(k, i)
    }

    /** Message k is the first to start in chunk i, and the offset says so. */
    predicate StartsFirst(k: nat, i: nat)
      requires k < |messages| && i + 1 < |cuts| && i < |offsets|
    {
      && StartsIn(k, i)
      && offsets[i] == Bound(k) - cuts[i]
      && (k > 0 ==> Bound(k - 1) < cuts[i])
    }

    ghost predicate Valid() {
      && |header| == HEADER_LENGTH
      && AllWhole(messages)
      && |cuts| == |offsets| + 1
      && cuts[0] == 0
      && (forall i: nat, j: nat :: i <= j < |cuts| ==> Ordered(i, j))
      && cuts[|cuts| - 1] <= |Body()|
      && (forall i :: 0 <= i < |offsets| ==> |ChunkData(i)| < 255)
      && (|offsets| > 0 ==> offsets[0] == 0)
      && (forall i {:trigger Truthful(i)} :: 1 <= i < |offsets| ==> Truthful(i))
    }

    predicate Ordered(i: nat, j: nat)
      requires i < |cuts| && j < |cuts|
    {
      cuts[i] <= cuts[j]
    }

    lemma {:induction false} CutsAscend(i: nat, j: nat)
      requires Valid() && i <= j < |cuts|
      ensures cuts[i] <= cuts[j] <= |Body()|
    {
      assert Ordered(i, j) && Ordered(j, |cuts| - 1);
    }

    function ChunkBody(i: nat): seq<byte>
      requires i + 1 < |cuts|
    {
      if cuts[i] <= cuts[i + 1] <= |Body()| then Body()[cuts[i]..cuts[i + 1]] else []
    }

    function ChunkData(i: nat): seq<byte>
      requires i + 1 < |cuts|
    {
      if i == 0 then header + ChunkBody(0) else ChunkBody(i)
    }

    /** Message k has bytes on both sides of, or in, chunk i. */
    predicate Touches(i: nat, k: nat)
      requires i + 1 < |cuts| && k < |messages|
    {
      cuts[i] < Bound(k + 1) && Bound(k) < cuts[i + 1]
    }

    /** Every chunk from the one with the first byte of message k to the one with its last byte arrived. */
    ghost predicate Delivered(k: nat, arrived: set<nat>)
      requires |cuts| > 0 && k < |messages|
    {
      && Bound(k + 1) <= cuts[|cuts| - 1]
      && forall i: nat :: i < Chunks() && Touches(i, k) ==> i in arrived
    }

    /** The delivered ones among the first k messages, in order. */
    ghost function DeliveredBelow(k: nat, arrived: set<nat>): seq<seq<byte>>
      requires |cuts| > 0 && k <= |messages|
    {
      if k == 0 then []
      else if Delivered(k - 1, arrived) then DeliveredBelow(k - 1, arrived) + [messages[k - 1]]
      else DeliveredBelow(k - 1, arrived)
    }

    // ---- positions

    lemma {:induction false} BoundStep(k: nat)
      requires AllWhole(messages) && k < |messages|
      ensures Bound(k + 1) == Bound(k) + |messages[k]|
      ensures Bound(k) + 3 <= Bound(k + 1)
    {
      assert messages[..k + 1] == messages[..k] + [messages[k]];
      FlatSnoc(messages[..k], messages[k]);
    }

    lemma {:induction false} BoundMonotone(j: nat, k: nat)
      requires AllWhole(messages) && j <= k <= |messages|
      ensures Bound(j) <= Bound(k)
      ensures j < k ==> Bound(j) < Bound(k)
      decreases k - j
    {
      if j >= k {
      } else {
        BoundStep(k - 1);
        BoundMonotone(j, k - 1);
      }
    }

    lemma {:induction false} BoundEnd(k: nat)
      requires AllWhole(messages) && k <= |messages|
      ensures Bound(k) <= |Body()| && Bound(|messages|) == |Body()|
    {
      assert messages[..|messages|] == messages;
      BoundMonotone(k, |messages|);
    }

    /** The body bytes between two bounds are the messages between them. */
    lemma {:induction false} BodyBetween(j: nat, k: nat)
      requires AllWhole(messages) && j <= k <= |messages|
      ensures Bound(j) <= Bound(k) <= |Body()|
      ensures Body()[Bound(j)..Bound(k)] == Flat(messages[j..k])
    {
      BoundMonotone(j, k);
      BoundEnd(k);
      assert messages == messages[..j] + messages[j..k] + messages[k..];
      FlatAppend(messages[..j] + messages[j..k], messages[k..]);
      FlatAppend(messages[..j], messages[j..k]);
      assert messages[..k] == messages[..j] + messages[j..k];
    }

    lemma {:induction false} BodyOne(k: nat)
      requires AllWhole(messages) && k < |messages|
      ensures Bound(k) <= Bound(k + 1) <= |Body()|
      ensures Body()[Bound(k)..Bound(k + 1)] == messages[k]
    {
      BodyBetween(k, k + 1);
      assert messages[k..k + 1] == [messages[k]];
      FlatSingle(messages[k]);
    }

    /** A proper prefix of a message does not look whole. */
    lemma {:induction false} PartIsNotWhole(k: nat, c: nat)
      requires AllWhole(messages) && k < |messages| && Bound(k) <= c < Bound(k + 1)
      ensures c <= |Body()| && !StartsWithWhole(Body()[Bound(k)..c])
    {
      BodyOne(k);
      var part, m := Body()[Bound(k)..c], messages[k];
      InnerSlice(Body(), Bound(k), c, Bound(k + 1));
      assert part == m[..c - Bound(k)];
      if |part| > 2 {
        assert part[0] == m[0] && part[1] == m[1];
      }
    }

    /** Splitting the body from a message start to any later point. */
    lemma {:induction false} SplitBody(j: nat, n: nat, c: nat)
      requires AllWhole(messages) && j <= n <= |messages|
      requires Bound(n) <= c <= |Body()| && (n < |messages| ==> c < Bound(n + 1))
      ensures Bound(j) <= c
      ensures Split(Body()[Bound(j)..c]) == Parts(messages[j..n], Body()[Bound(n)..c])
    {
      BodyBetween(j, n);
      var rest := Body()[Bound(n)..c];
      if n < |messages| {
        PartIsNotWhole(n, c);
      } else {
        BoundEnd(n);
      }
      assert Body()[Bound(j)..c] == Body()[Bound(j)..Bound(n)] + rest;
      SplitUnique(messages[j..n], rest);
    }

    /** The number of messages that end at or before position c. */
    function EndedBy(c: nat, k: nat): (n: nat)
      requires k <= |messages|
      ensures n <= k && Bound(n) <= c && (n < k ==> c < Bound(n + 1))
      decreases k
    {
      if k == 0 || Bound(k) <= c then assert k == 0 ==> messages[..k] == []; k else EndedBy(c, k - 1)
    }

    /** The first message that starts at or after position c. */
    function NextStart(c: nat): (n: nat)
      requires AllWhole(messages) && c <= |Body()|
      ensures n <= |messages| && c <= Bound(n) && (n > 0 ==> Bound(n - 1) < c)
    {
      var n := EndedBy(c, |messages|);
      BoundEnd(n);
      if Bound(n) == c then (if n > 0 then BoundStep(n - 1); n else n) else n + 1
    }
  }

  function EmptyStream(header: seq<byte>): Stream {
    Stream(header, [], [0], [])
  }

  type ValidStream = st: Stream | st.Valid() ghost witness EmptyStream(seq(HEADER_LENGTH, i => 0))
}
