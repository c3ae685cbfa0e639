/** The ordering of channels by the configuration, `sortChannels` in src/model/db/ChannelDB.ts. */
module ChannelOrder {
  import opened Options

  /** `rest` stands for the fields that play no part in the order. */
  datatype Channel = Channel(id: int, serviceId: int, rest: int)

  datatype Key = Id | ServiceId

  function KeyOf(c: Channel, key: Key): int {
    if key.Id? then c.id else c.serviceId
  }

  /** No key that some channel has is listed twice. */
  predicate Distinct(channels: seq<Channel>, key: Key, order: seq<int>) {
    forall j :: 0 <= j < |order| && First(channels, key, order[j]) < |channels| ==> order[j] !in order[..j]
  }

  /** The position of the first channel with the given key, or the number of channels. */
  function First(channels: seq<Channel>, key: Key, id: int): (i: nat)
    ensures i <= |channels| && (i < |channels| ==> KeyOf(channels[i], key) == id)
    ensures forall j :: 0 <= j < i ==> KeyOf(channels[j], key) != id
  {
    if channels == [] || KeyOf(channels[0], key) == id then 0 else 1 + First(channels[1..], key, id)
  }

  /** For each listed key that occurs, the earliest channel that has it, in the order of the list. */
  ghost function Picks(channels: seq<Channel>, key: Key, order: seq<int>): seq<Channel> {
    if order == [] then []
    else
      var last := |order| - 1;
      var i := First(channels, key, order[last]);
      Picks(channels, key, order[..last]) + if i < |channels| then [channels[i]] else []
  }

  /** Channel `j` is the earliest with a listed key. */
  ghost predicate IsPick(channels: seq<Channel>, key: Key, order: seq<int>, j: nat)
    requires j < |channels|
  {
    KeyOf(channels[j], key) in order && forall i :: 0 <= i < j ==> KeyOf(channels[i], key) != KeyOf(channels[j], key)
  }

  /** Of the first `n` channels, those that are not picked, in their order. */
  ghost function Others(channels: seq<Channel>, key: Key, order: seq<int>, n: nat): seq<Channel>
    requires n <= |channels|
  {
    if n == 0 then []
    else Others(channels, key, order, n - 1) + if IsPick(channels, key, order, n - 1) then [] else [channels[n - 1]]
  }

  lemma {:induction false} PicksHaveListedKeys(channels: seq<Channel>, key: Key, order: seq<int>)
    ensures forall c :: c in Picks(channels, key, order) ==> KeyOf(c, key) in order && c in channels
  {
    if order != [] {
      var last := |order| - 1;
      PicksHaveListedKeys(channels, key, order[..last]);
      assert order[last] in order && forall id :: id in order[..last] ==> id in order;
    }
  }

  lemma {:induction false} OthersAreChannels(channels: seq<Channel>, key: Key, order: seq<int>, n: nat)
    requires n <= |channels|
    ensures forall c :: c in Others(channels, key, order, n) ==> c in channels[..n]
  {
    if n > 0 {
      OthersAreChannels(channels, key, order, n - 1);
      assert channels[..n] == channels[..n - 1] + [channels[n - 1]];
    }
  }

  lemma PickChanges(channels: seq<Channel>, key: Key, order: seq<int>, id: int, j: nat)
    requires j < |channels| && id !in order
    ensures IsPick(channels, key, order + [id], j) <==> IsPick(channels, key, order, j) || j == First(channels, key, id)
    ensures j == First(channels, key, id) ==> !IsPick(channels, key, order, j)
  {
  }

  lemma {:induction false} SameOthers(channels: seq<Channel>, key: Key, order: seq<int>, id: int, n: nat)
    requires n <= First(channels, key, id) || (n <= |channels| && id in order)
    ensures Others(channels, key, order + [id], n) == Others(channels, key, order, n)
  {
    if n > 0 {
      SameOthers(channels, key, order, id, n - 1);
      assert KeyOf(channels[n - 1], key) in order + [id] <==> KeyOf(channels[n - 1], key) in order;
    }
  }

  /** A further listed key takes one channel out of the others, the first that has it. */
  lemma {:induction false} OneMorePick(channels: seq<Channel>, key: Key, order: seq<int>, id: int, n: nat)
    returns (skipped: seq<Channel>, back: seq<Channel>)
    requires First(channels, key, id) < n <= |channels| && id !in order
    ensures skipped == Others(channels, key, order, First(channels, key, id))
    ensures Others(channels, key, order, n) == skipped + [channels[First(channels, key, id)]] + back
    ensures Others(channels, key, order + [id], n) == skipped + back
    decreases n
  {
    var f := First(channels, key, id);
    PickChanges(channels, key, order, id, n - 1);
    if n == f + 1 {
      SameOthers(channels, key, order, id, f);
      skipped, back := Others(channels, key, order, f), [];
    } else {
      skipped, back := OneMorePick(channels, key, order, id, n - 1);
      back := back + if IsPick(channels, key, order, n - 1) then [] else [channels[n - 1]];
    }
  }

  function Min(a: int, b: int): int { if a < b then a else b }

  /** Element `i` taken out and put back so that it stands at position `to`, or last. */
  function Moved(channels: seq<Channel>, i: nat, to: nat): seq<Channel>
    requires i < |channels|
  {
    var rest := channels[..i] + channels[i + 1..];
    var at := Min(to, |rest|);
    rest[..at] + [channels[i]] + rest[at..]
  }

  lemma MovedIsPermutation(channels: seq<Channel>, i: nat, to: nat)
    requires i < |channels|
    ensures multiset(Moved(channels, i, to)) == multiset(channels)
  {
    var rest := channels[..i] + channels[i + 1..];
    var at := Min(to, |rest|);
    assert channels == channels[..i] + [channels[i]] + channels[i + 1..];
    assert rest == rest[..at] + rest[at..];
    assert multiset(rest) == multiset(rest[..at]) + multiset(rest[at..]);
    assert multiset(channels) == multiset(rest) + multiset([channels[i]]);
  }

  /** Moving the first element of `middle` with its key behind `front`. */
  lemma MovedForward(front: seq<Channel>, skipped: seq<Channel>, c: Channel, back: seq<Channel>)
    ensures Moved(front + skipped + [c] + back, |front| + |skipped|, |front|) == front + [c] + (skipped + back)
  {
    var all := front + skipped + [c] + back;
    var i := |front| + |skipped|;
    assert all[..i] == front + skipped && all[i + 1..] == back;
    var rest := all[..i] + all[i + 1..];
    assert rest[..|front|] == front && rest[|front|..] == skipped + back;
  }

  method FindIndex(channels: seq<Channel>, key: Key, id: int) returns (i: int)
    ensures i == if First(channels, key, id) < |channels| then First(channels, key, id) else -1
  {
    for k := 0 to |channels|
      invariant forall j :: 0 <= j < k ==> KeyOf(channels[j], key) != id
    {
      if KeyOf(channels[k], key) == id { return k; }
    }
    return -1;
  }

  ghost predicate Ordered(current: seq<Channel>, cnt: nat, channels: seq<Channel>, key: Key, order: seq<int>) {
    cnt == |Picks(channels, key, order)| && current == Picks(channels, key, order) + Others(channels, key, order, |channels|)
  }

  lemma NothingListed(channels: seq<Channel>, key: Key, n: nat)
    requires n <= |channels|
    ensures Others(channels, key, [], n) == channels[..n]
  {
    if n > 0 {
      NothingListed(channels, key, n - 1);
      assert channels[..n] == channels[..n - 1] + [channels[n - 1]];
    }
  }

  lemma FirstIsMember(current: seq<Channel>, key: Key, id: int)
    ensures First(current, key, id) < |current| ==> exists c :: c in current && KeyOf(c, key) == id
  {
    if First(current, key, id) < |current| { assert current[First(current, key, id)] in current; }
  }

  lemma PicksNext(channels: seq<Channel>, key: Key, order: seq<int>, id: int)
    ensures var i, picks := First(channels, key, id), Picks(channels, key, order);
      Picks(channels, key, order + [id]) == if i < |channels| then picks + [channels[i]] else picks
  {
    assert (order + [id])[..|order|] == order;
    assert Picks(channels, key, order) + [] == Picks(channels, key, order);
  }

  /** Neither the picks so far nor the others before its first channel have a key that is new to the list. */
  lemma NoneHasKey(channels: seq<Channel>, key: Key, order: seq<int>, id: int)
    requires id !in order || First(channels, key, id) == |channels|
    ensures forall c :: c in Picks(channels, key, order) || c in Others(channels, key, order, First(channels, key, id)) ==> KeyOf(c, key) != id
  {
    assert First(channels, key, id) == |channels| ==> forall c :: c in channels ==> KeyOf(c, key) != id;
    PicksHaveListedKeys(channels, key, order);
    OthersAreChannels(channels, key, order, First(channels, key, id));
  }

  lemma MissingEverywhere(picks: seq<Channel>, others: seq<Channel>, channels: seq<Channel>, key: Key, order: seq<int>, id: int)
    requires picks == Picks(channels, key, order) && others == Others(channels, key, order, |channels|)
    requires First(channels, key, id) == |channels|
    ensures First(picks + others, key, id) == |picks + others|
  {
    NoneHasKey(channels, key, order, id);
    FirstIsMember(picks + others, key, id);
  }

  /** A listed key that no channel has changes nothing. */
  lemma MissingKey(current: seq<Channel>, cnt: nat, channels: seq<Channel>, key: Key, order: seq<int>, id: int)
    requires Ordered(current, cnt, channels, key, order) && First(channels, key, id) == |channels|
    ensures First(current, key, id) == |current| && Ordered(current, cnt, channels, key, order + [id])
  {
    SameOthers(channels, key, order, id, |channels|);
    PicksNext(channels, key, order, id);
    MissingEverywhere(Picks(channels, key, order), Others(channels, key, order, |channels|), channels, key, order, id);
  }

  /** The first channel with a listed key is found where it stands among the others, and moved forward. */
  lemma FoundKey(current: seq<Channel>, cnt: nat, channels: seq<Channel>, key: Key, order: seq<int>, id: int)
    requires Ordered(current, cnt, channels, key, order) && id !in order
    requires First(channels, key, id) < |channels|
    ensures First(current, key, id) < |current|
    ensures Ordered(Moved(current, First(current, key, id), cnt), cnt + 1, channels, key, order + [id])
  {
    var c, picks := channels[First(channels, key, id)], Picks(channels, key, order);
    var skipped, back := OneMorePick(channels, key, order, id, |channels|);
    assert current == picks + skipped + [c] + back by {
      assert current == picks + (skipped + [c] + back);
    }
    NoneHasKey(channels, key, order, id);
    FoundBehind(picks, skipped, c, back, key, id);
    var next := Moved(current, First(current, key, id), cnt);
    assert next == picks + [c] + (skipped + back);
    PicksNext(channels, key, order, id);
    assert Ordered(next, cnt + 1, channels, key, order + [id]);
  }

  lemma FoundBehind(picks: seq<Channel>, skipped: seq<Channel>, c: Channel, back: seq<Channel>, key: Key, id: int)
    requires KeyOf(c, key) == id && forall x :: x in picks || x in skipped ==> KeyOf(x, key) != id
    ensures First(picks + skipped + [c] + back, key, id) == |picks| + |skipped|
    ensures Moved(picks + skipped + [c] + back, |picks| + |skipped|, |picks|) == picks + [c] + (skipped + back)
  {
    var current, i := picks + skipped + [c] + back, |picks| + |skipped|;
    forall j | 0 <= j < i ensures KeyOf(current[j], key) != id {
      assert current[j] == if j < |picks| then picks[j] else skipped[j - |picks|];
    }
    FirstIs(current, key, id, i);
    MovedForward(picks, skipped, c, back);
  }

  lemma FirstIs(channels: seq<Channel>, key: Key, id: int, i: nat)
    requires i < |channels| && KeyOf(channels[i], key) == id && forall j :: 0 <= j < i ==> KeyOf(channels[j], key) != id
    ensures First(channels, key, id) == i
  {
  }

  /** A repeated key would pick a channel a second time, so that there are more picks and others than channels. */
  lemma {:induction false} LengthShowsRepeats(channels: seq<Channel>, key: Key, order: seq<int>)
    ensures var n := |Picks(channels, key, order)| + |Others(channels, key, order, |channels|)|;
      n >= |channels| && (n == |channels| <==> Distinct(channels, key, order))
  {
    if order == [] {
      NothingListed(channels, key, |channels|);
    } else {
      var last := |order| - 1;
      var id := order[last];
      LengthShowsRepeats(channels, key, order[..last]);
      assert order[..last] + [id] == order;
      assert forall j :: 0 <= j < last ==> order[..last][..j] == order[..j];
      if First(channels, key, id) == |channels| || id in order[..last] {
        SameOthers(channels, key, order[..last], id, |channels|);
      } else {
        var skipped, back := OneMorePick(channels, key, order[..last], id, |channels|);
      }
    }
  }

  // What the picks are, in the fields of the channels

  /** Channel `p` of the picks goes by place `a` of the list, and is channel `j`, the earliest with its key. */
  ghost predicate PickedBy(channels: seq<Channel>, key: Key, order: seq<int>, picks: seq<Channel>, p: nat, a: nat, j: nat) {
    && p < |picks| && a < |order| && j < |channels| && KeyOf(picks[p], key) == order[a] && picks[p] == channels[j]
    && forall i :: 0 <= i < j ==> KeyOf(channels[i], key) != order[a]
  }

  /** The places of the list that the picks go by, and the places where they stood; both lists of places are the witness. */
  lemma {:induction false} PicksGoBy(channels: seq<Channel>, key: Key, order: seq<int>) returns (places: seq<nat>, from: seq<nat>)
    ensures var picks := Picks(channels, key, order);
      && |places| == |from| == |picks|
      && (forall p :: 0 <= p < |picks| ==> PickedBy(channels, key, order, picks, p, places[p], from[p]))
      && (forall p, q :: 0 <= p < q < |picks| ==> places[p] < places[q])
      && forall a :: 0 <= a < |order| && First(channels, key, order[a]) < |channels| ==> a in places
  {
    if order == [] {
      places, from := [], [];
    } else {
      var last := |order| - 1;
      places, from := PicksGoBy(channels, key, order[..last]);
      var i := First(channels, key, order[last]);
      var before := Picks(channels, key, order[..last]);
      forall p | 0 <= p < |before| ensures PickedBy(channels, key, order, before, p, places[p], from[p]) && places[p] < last {
        assert PickedBy(channels, key, order[..last], before, p, places[p], from[p]);
      }
      if i < |channels| {
        var picks := before + [channels[i]];
        forall p | 0 <= p < |picks| ensures PickedBy(channels, key, order, picks, p, (places + [last])[p], (from + [i])[p]) {
          if p < |before| { assert PickedBy(channels, key, order, before, p, places[p], from[p]); }
        }
        places, from := places + [last], from + [i];
      }
    }
  }

  /**
   Sorting by channel number: the picks are channels with listed ids, each the earliest with its id; they
   stand in the order of the list, and no listed id that occurs is left out. The others are the rest.
   */
  lemma GoesById(channels: seq<Channel>, order: seq<int>) returns (places: seq<nat>, from: seq<nat>)
    ensures var picks := Picks(channels, Id, order);
      && |places| == |from| == |picks|
      && (forall p :: 0 <= p < |picks| ==>
            && places[p] < |order| && picks[p].id == order[places[p]]
            && from[p] < |channels| && picks[p] == channels[from[p]])
      && (forall p, i :: 0 <= p < |picks| && 0 <= i < from[p] ==> channels[i].id != picks[p].id)
      && (forall p, q :: 0 <= p < q < |picks| ==> places[p] < places[q])
      && forall a, j :: 0 <= a < |order| && 0 <= j < |channels| && channels[j].id == order[a] ==> a in places
    ensures forall j :: 0 <= j < |channels| ==>
      (IsPick(channels, Id, order, j) <==> channels[j].id in order && forall i :: 0 <= i < j ==> channels[i].id != channels[j].id)
  {
    places, from := PicksGoBy(channels, Id, order);
    forall p | 0 <= p < |places| ensures PickedBy(channels, Id, order, Picks(channels, Id, order), p, places[p], from[p]) {}
    forall a, j | 0 <= a < |order| && 0 <= j < |channels| && channels[j].id == order[a] ensures a in places {
      assert KeyOf(channels[j], Id) == order[a];
    }
    forall i | 0 <= i < |channels| ensures KeyOf(channels[i], Id) == channels[i].id {}
  }

  /** The same for service numbers. */
  lemma GoesByServiceId(channels: seq<Channel>, order: seq<int>) returns (places: seq<nat>, from: seq<nat>)
    ensures var picks := Picks(channels, ServiceId, order);
      && |places| == |from| == |picks|
      && (forall p :: 0 <= p < |picks| ==>
            && places[p] < |order| && picks[p].serviceId == order[places[p]]
            && from[p] < |channels| && picks[p] == channels[from[p]])
      && (forall p, i :: 0 <= p < |picks| && 0 <= i < from[p] ==> channels[i].serviceId != picks[p].serviceId)
      && (forall p, q :: 0 <= p < q < |picks| ==> places[p] < places[q])
      && forall a, j :: 0 <= a < |order| && 0 <= j < |channels| && channels[j].serviceId == order[a] ==> a in places
    ensures forall j :: 0 <= j < |channels| ==>
      (IsPick(channels, ServiceId, order, j)
       <==> channels[j].serviceId in order && forall i :: 0 <= i < j ==> channels[i].serviceId != channels[j].serviceId)
  {
    places, from := PicksGoBy(channels, ServiceId, order);
    forall p | 0 <= p < |places| ensures PickedBy(channels, ServiceId, order, Picks(channels, ServiceId, order), p, places[p], from[p]) {}
    forall a, j | 0 <= a < |order| && 0 <= j < |channels| && channels[j].serviceId == order[a] ensures a in places {
      assert KeyOf(channels[j], ServiceId) == order[a];
    }
    forall i | 0 <= i < |channels| ensures KeyOf(channels[i], ServiceId) == channels[i].serviceId {}
  }

  method MoveForward(channels: seq<Channel>, i: nat, cnt: nat) returns (r: seq<Channel>)
    requires i < |channels|
    ensures r == Moved(channels, i, cnt)
  {
    var rest := channels[..i] + channels[i + 1..];
    var at := Min(cnt, |rest|);
    r := rest[..at] + [channels[i]] + rest[at..];
  }

  method Arrange(channels: seq<Channel>, key: Key, order: seq<int>) returns (sorted: seq<Channel>)
    ensures multiset(sorted) == multiset(channels)
    ensures Distinct(channels, key, order) <==> sorted == Picks(channels, key, order) + Others(channels, key, order, |channels|)
  {
    sorted := channels;
    var cnt := 0;
    NothingListed(channels, key, |channels|);
    for k := 0 to |order|
      invariant multiset(sorted) == multiset(channels)
      invariant Distinct(channels, key, order) ==> Ordered(sorted, cnt, channels, key, order[..k])
    {
      var i := FindIndex(sorted, key, order[k]);
      assert order[..k + 1] == order[..k] + [order[k]];
      if Distinct(channels, key, order) {
        if First(channels, key, order[k]) < |channels| {
          FoundKey(sorted, cnt, channels, key, order[..k], order[k]);
        } else {
          MissingKey(sorted, cnt, channels, key, order[..k], order[k]);
        }
      }
      if i == -1 { continue; }
      MovedIsPermutation(sorted, i, cnt);
      sorted := MoveForward(sorted, i, cnt);
      cnt := cnt + 1;
    }
    assert order[..|order|] == order;
    LengthShowsRepeats(channels, key, order);
    assert |sorted| == |multiset(sorted)| == |multiset(channels)| == |channels|;
  }

  /**
   Always a permutation. Exactly if no key that occurs is listed twice: first the earliest channel for
   each listed key, in the order of the list, then the others in the order they had.
   */
  method SortChannels(channels: seq<Channel>, channelOrder: Option<seq<int>>, sidOrder: Option<seq<int>>) returns (sorted: seq<Channel>)
    ensures multiset(sorted) == multiset(channels)
    ensures channelOrder.Some? ==>
      (Distinct(channels, Id, channelOrder.value)
       <==> sorted == Picks(channels, Id, channelOrder.value) + Others(channels, Id, channelOrder.value, |channels|))
    ensures channelOrder.None? && sidOrder.Some? ==>
      (Distinct(channels, ServiceId, sidOrder.value)
       <==> sorted == Picks(channels, ServiceId, sidOrder.value) + Others(channels, ServiceId, sidOrder.value, |channels|))
    ensures channelOrder.None? && sidOrder.None? ==> sorted == channels
  {
    if channelOrder.Some? {
      sorted := Arrange(channels, Id, channelOrder.value);
    } else if sidOrder.Some? {
      sorted := Arrange(channels, ServiceId, sidOrder.value);
    } else {
      sorted := channels;
    }
  }
}
