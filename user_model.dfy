/** The user schema: the active XP effect, the per-topic progress map and
    the user record with its defaults. */
module UserModel {
  import opened Common

  /** `activeEffect.type` is "blessing", "curse" or null. */
  datatype EffectKind = NoEffect | Blessing | Curse

  /** The XP multiplier is kept in halves: 2 stands for 1, 3 for 1.5 and
      1 for 0.5, the only values the engine ever stores. The expiry is a
      millisecond clock reading; `None` stands for an absent (`undefined`)
      date, as in the schema default. A stored `null`, which compares as
      0 and so reads as already expired, is not represented; no handler
      writes one. */
  datatype ActiveEffect = ActiveEffect(
    kind: EffectKind,
    name: Option<string>,
    modifierHalves: nat,
    expiresAt: Option<int>)

  /** The schema default `{}`: no type, modifier 1, no expiry. */
  const DefaultEffect := ActiveEffect(NoEffect, None, 2, None)

  predicate EffectWellFormed(e: ActiveEffect)
  {
    e.modifierHalves in {1, 2, 3}
  }

  datatype ProgressEntry = ProgressEntry(correct: nat, totalAttempted: nat, mastered: bool)

  /** A freshly created progress sub-document. */
  const NewEntry := ProgressEntry(0, 0, false)

  datatype ProgressItem = ProgressItem(key: string, entry: ProgressEntry)

  /** A JavaScript Map iterates in insertion order, so the progress map is
      an association list in that order. */
  type Progress = seq<ProgressItem>

  function Keys(p: Progress): (ks: seq<string>)
    ensures |ks| == |p|
    ensures forall i :: 0 <= i < |p| ==> ks[i] == p[i].key
  {
    if p == [] then [] else [p[0].key] + Keys(p[1..])
  }

  predicate DistinctKeys(p: Progress)
  {
    forall i, j :: 0 <= i < j < |p| ==> p[i].key != p[j].key
  }

  /** Every entry has no more correct answers than attempts. */
  predicate Consistent(p: Progress)
  {
    forall i :: 0 <= i < |p| ==> p[i].entry.correct <= p[i].entry.totalAttempted
  }

  /** The position of the first entry stored under `key`. */
  function IndexOf(p: Progress, key: string): (i: nat)
    requires key in Keys(p)
    ensures i < |p| && p[i].key == key
    ensures forall j :: 0 <= j < i ==> p[j].key != key
  {
    if p[0].key == key then 0
    else
      assert Keys(p) == [p[0].key] + Keys(p[1..]);
      1 + IndexOf(p[1..], key)
  }

  /** `progress.get(key)`: the entry stored under `key`, if any. */
  function Lookup(p: Progress, key: string): (r: Option<ProgressEntry>)
    ensures r.None? <==> key !in Keys(p)
    ensures r.Some? ==> exists i :: 0 <= i < |p| && p[i].key == key && p[i].entry == r.value
  {
    if key in Keys(p) then Some(p[IndexOf(p, key)].entry) else None
  }

  /** In a list with distinct keys, the lookup of the i-th key finds the
      i-th entry. */
  lemma LookupAt(p: Progress, i: nat)
    requires DistinctKeys(p) && i < |p|
    ensures Lookup(p, p[i].key) == Some(p[i].entry)
  {
    assert Keys(p)[i] == p[i].key;
  }

  /** `progress.set(key, e)`: overwrite in place when the key is present,
      append at the end otherwise. */
  function Set(p: Progress, key: string, e: ProgressEntry): (r: Progress)
    ensures |r| == if key in Keys(p) then |p| else |p| + 1
    ensures DistinctKeys(p) ==>
              forall i :: 0 <= i < |p| ==> r[i] == (if p[i].key == key then ProgressItem(key, e) else p[i])
    ensures key !in Keys(p) ==> r[|p|] == ProgressItem(key, e)
  {
    if key in Keys(p) then p[IndexOf(p, key) := ProgressItem(key, e)]
    else p + [ProgressItem(key, e)]
  }

  /** Setting keeps the keys distinct and in the same order; a new key
      goes at the end. */
  lemma SetKeys(p: Progress, key: string, e: ProgressEntry)
    requires DistinctKeys(p)
    ensures DistinctKeys(Set(p, key, e))
    ensures Keys(Set(p, key, e)) == if key in Keys(p) then Keys(p) else Keys(p) + [key]
  {
    var r := Set(p, key, e);
    if key !in Keys(p) {
      forall i | 0 <= i < |p| ensures p[i].key != key { assert Keys(p)[i] == p[i].key; }
    }
  }

  /** Looking up a key finds the entry just written, and every other key
      keeps its entry. */
  lemma LookupAfterSet(p: Progress, key: string, e: ProgressEntry, other: string)
    requires DistinctKeys(p)
    ensures Lookup(Set(p, key, e), key) == Some(e)
    ensures other != key ==> Lookup(Set(p, key, e), other) == Lookup(p, other)
  {
    SetKeys(p, key, e);
    var r := Set(p, key, e);
    var i := IndexOf(r, key);
    LookupAt(r, i);
    if other != key && other in Keys(p) {
      var j := IndexOf(p, other);
      LookupAt(p, j);
      LookupAt(r, j);
    } else if other != key {
      assert other !in Keys(r);
    }
  }

  /** Writing an entry that satisfies correct <= totalAttempted keeps the
      whole map consistent. */
  lemma SetKeepsConsistent(p: Progress, key: string, e: ProgressEntry)
    requires DistinctKeys(p) && Consistent(p) && e.correct <= e.totalAttempted
    ensures Consistent(Set(p, key, e))
  {
    var r := Set(p, key, e);
    assert forall i :: 0 <= i < |r| ==> r[i] == (if i < |p| && p[i].key != key then p[i] else ProgressItem(key, e));
  }

  /** The mutable fields of a user document, as one value. */
  datatype UserState = UserState(
    level: int,
    xp: int,
    xpToNextLevel: int,
    rank: string,
    correctAnswers: nat,
    activeEffect: ActiveEffect,
    progress: Progress,
    maxSessionStreak: int,
    friends: seq<ObjectId>,
    friendRequestsSent: seq<ObjectId>,
    friendRequestsReceived: seq<ObjectId>)

  /** The levelling invariant (threshold 150 x level, xp below it), a
      well-formed effect and a consistent progress map. */
  predicate UserInv(u: UserState)
  {
    && u.level >= 1
    && u.xpToNextLevel == 150 * u.level
    && 0 <= u.xp < u.xpToNextLevel
    && EffectWellFormed(u.activeEffect)
    && DistinctKeys(u.progress)
    && Consistent(u.progress)
  }

  /** A new user as the schema's defaults create it. */
  const NewUserState := UserState(1, 0, 150, "Novice", 0, DefaultEffect, [], 0, [], [], [])

  lemma NewUserValid()
    ensures UserInv(NewUserState)
  {
  }

  /** The user document, with the fields the gauntlet and friends code
      read and write. `maxSessionStreak` is not declared by the schema;
      here it is declared and starts at 0. */
  class User {
    const id: ObjectId
    var level: int
    var xp: int
    var xpToNextLevel: int
    var rank: string
    var correctAnswers: nat
    var activeEffect: ActiveEffect
    var progress: Progress
    var maxSessionStreak: int
    var friends: seq<ObjectId>
    var friendRequestsSent: seq<ObjectId>
    var friendRequestsReceived: seq<ObjectId>

    /** The document's fields as one value. */
    function State(): UserState
      reads this
    {
      UserState(level, xp, xpToNextLevel, rank, correctAnswers, activeEffect, progress, maxSessionStreak,
                friends, friendRequestsSent, friendRequestsReceived)
    }

    predicate Valid()
      reads this
    {
      UserInv(State())
    }

    constructor (id: ObjectId)
      ensures this.id == id && State() == NewUserState
    {
      this.id := id;
      level, xp, xpToNextLevel, rank := 1, 0, 150, "Novice";
      correctAnswers, maxSessionStreak := 0, 0;
      activeEffect := DefaultEffect;
      progress := [];
      friends, friendRequestsSent, friendRequestsReceived := [], [], [];
    }
  }
}
