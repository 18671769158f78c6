/** A player's move: the four-field record read from the JSON object that the
    player's language model returns, under its human-readable key aliases. */
module Moves {
  import opened Wrappers
  import opened Texts

  /** A decoded JSON value, as far as the move needs to tell values apart:
      a string, an object (its members in document order), or anything else
      (number, boolean, null, array). */
  datatype Json = JString(text: string) | JObject(members: seq<(string, Json)>) | JOther

  /** The parsed move: a secret strategy, the name to give a coin to, the name
      to take a coin from, and private messages keyed by recipient name. */
  datatype Move = Move(strategy: string, give: string, take: string, messages: Dict)

  const StrategyKey: string := "secret strategy"
  const GiveKey: string := "give coin to"
  const TakeKey: string := "take coin from"
  const MessagesKey: string := "private messages"

  /** The value a decoded object holds under `key`. Decoding keeps the last of
      several members with the same key, so the search runs from the end. */
  function Member(members: seq<(string, Json)>, key: string): (r: Option<Json>)
    ensures r.None? <==> forall i :: 0 <= i < |members| ==> members[i].0 != key
    ensures r.Some? ==> exists i :: 0 <= i < |members| && members[i] == (key, r.value) &&
                          forall j :: i < j < |members| ==> members[j].0 != key
  {
    if members == [] then None
    else
      var init, last := members[..|members| - 1], members[|members| - 1];
      assert members == init + [last];
      if last.0 == key then Some(last.1)
      else Member(init, key)
  }

  /** True when `key` is present and holds a string. */
  predicate HasString(members: seq<(string, Json)>, key: string) {
    Member(members, key).Some? && Member(members, key).value.JString?
  }

  /** The `Dict[str, str]` field: an object whose every member is a string,
      entered in document order (a repeated key keeps its first position and
      its last value). */
  function StringDict(members: seq<(string, Json)>): (r: Option<Dict>)
    ensures r.Some? <==> forall i :: 0 <= i < |members| ==> members[i].1.JString?
    ensures r.Some? ==> UniqueKeys(r.value)
  {
    if members == [] then Some([])
    else
      var init := members[..|members| - 1];
      var last := members[|members| - 1];
      assert forall i :: 0 <= i < |members| - 1 ==> init[i] == members[i];
      match StringDict(init)
      case None => None
      case Some(d) =>
        if last.1.JString? then
          PutKeepsUnique(d, last.0, last.1.text);
          Some(Put(d, last.0, last.1.text))
        else None
  }

  /** `Move(**obj)`: the object must carry all four aliased keys, the first
      three holding strings and the messages an object of strings; any other
      member is ignored. */
  function FromJson(j: Json): (r: Option<Move>)
    ensures r.Some? <==>
      j.JObject? &&
      HasString(j.members, StrategyKey) && HasString(j.members, GiveKey) &&
      HasString(j.members, TakeKey) &&
      Member(j.members, MessagesKey).Some? && Member(j.members, MessagesKey).value.JObject? &&
      StringDict(Member(j.members, MessagesKey).value.members).Some?
    ensures r.Some? ==>
      r.value.strategy == Member(j.members, StrategyKey).value.text &&
      r.value.give == Member(j.members, GiveKey).value.text &&
      r.value.take == Member(j.members, TakeKey).value.text &&
      Some(r.value.messages) == StringDict(Member(j.members, MessagesKey).value.members)
  {
    match j
    case JObject(ms) =>
      (match (Member(ms, StrategyKey), Member(ms, GiveKey), Member(ms, TakeKey), Member(ms, MessagesKey))
       case (Some(JString(strategy)), Some(JString(give)), Some(JString(take)), Some(JObject(entries))) =>
         (match StringDict(entries)
          case Some(messages) => Some(Move(strategy, give, take, messages))
          case None => None)
       case _ => None)
    case _ => None
  }

  /** What the dictionary holds: exactly the keys of the object, each with the
      string the object holds under it, which for a repeated key is its last
      value. */
  lemma {:induction false} StringDictContents(members: seq<(string, Json)>, k: string)
    requires StringDict(members).Some?
    ensures HasKey(StringDict(members).value, k) <==> Member(members, k).Some?
    ensures HasKey(StringDict(members).value, k) ==>
              Member(members, k) == Some(JString(Get(StringDict(members).value, k)))
  {
    if members != [] {
      var init := members[..|members| - 1];
      var last := members[|members| - 1];
      assert members == init + [last];
      assert forall i :: 0 <= i < |members| - 1 ==> init[i] == members[i];
      StringDictContents(init, k);
      var d := StringDict(init).value;
      if last.0 == k {
        PutFacts(d, k, last.1.text);
      } else {
        PutOther(d, last.0, last.1.text, k);
      }
    }
  }

  /** The JSON object a player is asked to reply with: the four aliased keys in
      order, the messages as an object of strings. */
  function ToJson(m: Move): Json {
    JObject([(StrategyKey, JString(m.strategy)), (GiveKey, JString(m.give)),
             (TakeKey, JString(m.take)), (MessagesKey, JObject(StringMembers(m.messages)))])
  }

  function StringMembers(d: Dict): (ms: seq<(string, Json)>)
    ensures |ms| == |d|
    ensures forall i :: 0 <= i < |d| ==> ms[i] == (d[i].0, JString(d[i].1))
  {
    seq(|d|, i requires 0 <= i < |d| => (d[i].0, JString(d[i].1)))
  }

  /** Reading back a dictionary written as an object of strings gives the same
      dictionary, entries in the same order. */
  lemma {:induction false} StringDictOfMembers(d: Dict)
    requires UniqueKeys(d)
    ensures StringDict(StringMembers(d)) == Some(d)
  {
    if d != [] {
      var n := |d| - 1;
      var init := d[..n];
      var ms := StringMembers(d);
      LastKeyIsNew(d);
      StringDictOfMembers(init);
      assert ms[..n] == StringMembers(init);
      assert ms[n] == (d[n].0, JString(d[n].1));
      assert StringDict(ms) == Some(Put(init, d[n].0, d[n].1));
      PutAppends(init, d[n].0, d[n].1);
      SplitLast(d);
    }
  }

  /** Dropping the last entry keeps keys unique, and the last key is not among
      the others. */
  lemma LastKeyIsNew(d: Dict)
    requires d != [] && UniqueKeys(d)
    ensures UniqueKeys(d[..|d| - 1]) && !HasKey(d[..|d| - 1], d[|d| - 1].0)
  {
    var ks, n := Keys(d), |d| - 1;
    assert Keys(d[..n]) == ks[..n];
    forall i, j | 0 <= i < j < n
      ensures Differ(ks[..n], i, j)
    {
      assert Differ(ks, i, j);
    }
    forall i | 0 <= i < n
      ensures ks[..n][i] != ks[n]
    {
      assert Differ(ks, i, n);
    }
  }

  /** The four aliases are different keys. */
  lemma KeysDistinct()
    ensures StrategyKey != GiveKey && StrategyKey != TakeKey && StrategyKey != MessagesKey
    ensures GiveKey != TakeKey && GiveKey != MessagesKey && TakeKey != MessagesKey
  {
    assert StrategyKey[0] == 's' && GiveKey[0] == 'g' && TakeKey[0] == 't' && MessagesKey[0] == 'p';
  }

  /** In the requested layout each alias is found holding the field written
      under it. */
  lemma ToJsonMembers(m: Move)
    ensures Member(ToJson(m).members, MessagesKey) == Some(JObject(StringMembers(m.messages)))
    ensures Member(ToJson(m).members, TakeKey) == Some(JString(m.take))
    ensures Member(ToJson(m).members, GiveKey) == Some(JString(m.give))
    ensures Member(ToJson(m).members, StrategyKey) == Some(JString(m.strategy))
  {
    KeysDistinct();
    var ms := ToJson(m).members;
    assert ms[..3] == [ms[0], ms[1], ms[2]];
    assert ms[..3][..2] == [ms[0], ms[1]];
    assert ms[..3][..2][..1] == [ms[0]];
  }

  /** A well-formed reply in the requested layout parses back to the move it
      was written from: the aliases are read from the keys they are written to. */
  lemma FromJsonToJson(m: Move)
    requires UniqueKeys(m.messages)
    ensures FromJson(ToJson(m)) == Some(m)
  {
    StringDictOfMembers(m.messages);
    ToJsonMembers(m);
  }
}
