/**
  Identifier formats of the view model: new user ids ("U" and a number one above
  the highest existing one, at least two digits) and record ids (the user id,
  "-R" and the record's number, at least three digits).
 */
module Identifiers {
  import opened Optional
  import opened KotlinText
  import opened Users

  /** The number after a leading "U", when the rest reads as an `Int`. */
  function SuffixNumber(id: string): Option<int> {
    if |id| >= 1 && id[0] == 'U' then ToIntOrNull(id[1..]) else None
  }

  function UserIds(users: seq<BPUser>): (ids: seq<string>)
    ensures |ids| == |users| && forall k :: 0 <= k < |users| ==> ids[k] == users[k].id
  {
    if users == [] then [] else [users[0].id] + UserIds(users[1..])
  }

  /** The loop of `generateNewUserId` over the ids in order: start at 0 and take every parsed
      suffix that is larger. The result is the largest parsed suffix, or 0 when none is
      positive. */
  function Highest(ids: seq<string>): (h: int)
    ensures h >= 0 && IsInt32(h)
    ensures forall k :: 0 <= k < |ids| && SuffixNumber(ids[k]).Some? ==> SuffixNumber(ids[k]).value <= h
    ensures h == 0 || exists k :: 0 <= k < |ids| && SuffixNumber(ids[k]) == Some(h)
  {
    if ids == [] then 0
    else
      var before := Highest(ids[..|ids| - 1]);
      var n := SuffixNumber(ids[|ids| - 1]);
      if n.Some? && n.value > before then n.value else before
  }

  /** A null list is treated like an empty one. */
  function HighestOf(users: Option<seq<BPUser>>): (h: int)
    ensures h >= 0 && IsInt32(h)
  {
    match users
    case None => 0
    case Some(us) => Highest(UserIds(us))
  }

  /** `generateNewUserId`: `String.format("U%02d", highest + 1)` in `Int` arithmetic. The
      suffix, at least two characters, reads back as the highest suffix plus one. */
  function GenerateNewUserId(users: Option<seq<BPUser>>): (id: string)
    ensures |id| >= 3 && id[0] == 'U'
    ensures SuffixNumber(id) == Some(Wrap32(HighestOf(users) + 1))
  {
    var next := Wrap32(HighestOf(users) + 1);
    var text := FormatPadded(next, 2);
    FormatPaddedRoundTrip(next, 2);
    var id := "U" + text;
    assert id[1..] == text;
    id
  }

  /** The new id differs from every existing one, unless the highest suffix is already the
      largest `Int` and the increment wraps. */
  lemma NewUserIdIsFresh(users: seq<BPUser>, k: nat)
    requires HighestOf(Some(users)) < MaxInt && k < |users|
    ensures users[k].id != GenerateNewUserId(Some(users))
  {
    NextSuffix(Some(users));
    AboveHighest(UserIds(users), k);
  }

  lemma NextSuffix(users: Option<seq<BPUser>>)
    requires HighestOf(users) < MaxInt
    ensures SuffixNumber(GenerateNewUserId(users)) == Some(HighestOf(users) + 1)
  {
    var h := HighestOf(users);
    assert IsInt32(h + 1);
    assert Wrap32(h + 1) == h + 1;
  }

  lemma AboveHighest(ids: seq<string>, k: nat)
    requires k < |ids|
    ensures SuffixNumber(ids[k]) != Some(Highest(ids) + 1)
  {
  }

  /** With no users, or none yet, the first id is "U01". */
  lemma FirstUserId()
    ensures GenerateNewUserId(None) == "U01"
    ensures GenerateNewUserId(Some([])) == "U01"
  {
    assert Digits(1) == "1";
    assert ZeroPad("1", 2) == "01" by {
      assert Zeros(1) == "0";
    }
  }

  /** A user whose id does not read as "U" and an `Int` does not change the next id. */
  lemma IgnoresUnparseable(users: seq<BPUser>, u: BPUser)
    requires SuffixNumber(u.id).None?
    ensures GenerateNewUserId(Some(users + [u])) == GenerateNewUserId(Some(users))
  {
    var ids := UserIds(users + [u]);
    assert ids == UserIds(users) + [u.id];
    HighestSkipsUnparseable(UserIds(users), u.id);
    assert HighestOf(Some(users + [u])) == HighestOf(Some(users));
  }

  lemma HighestSkipsUnparseable(ids: seq<string>, id: string)
    requires SuffixNumber(id).None?
    ensures Highest(ids + [id]) == Highest(ids)
  {
    assert (ids + [id])[..|ids|] == ids;
  }

  /** `setBPRecordData`'s record id, `String.format("%s-R%03d", id, records.size + 1)`: the user
      id, "-R", then a number of at least three digits that reads back as the record count plus
      one (a list size is an `Int`, so the count is at most the largest `Int`). */
  function RecordId(user: BPUser): (r: string)
    requires |user.records| <= MaxInt
    ensures |r| >= |user.id| + 5
    ensures r[..|user.id|] == user.id && r[|user.id|..|user.id| + 2] == "-R"
    ensures |user.records| < MaxInt ==> ToIntOrNull(r[|user.id| + 2..]) == Some(|user.records| + 1)
  {
    var number := FormatPadded(Wrap32(|user.records| + 1), 3);
    var r := user.id + "-R" + number;
    assert r[|user.id| + 2..] == number;
    FormatPaddedRoundTrip(Wrap32(|user.records| + 1), 3);
    r
  }
}
