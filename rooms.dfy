/**
 * Housing room cards: the five-star rating strip and the occupancy label.
 */
module Rooms {
  import opened Util

  const TotalStars: nat := 5

  /** `StarRating`: star i is filled iff i < Math.floor(rating). */
  function Stars(rating: real): (r: seq<bool>)
    ensures |r| == TotalStars
    ensures forall i :: 0 <= i < TotalStars ==> (r[i] <==> i < rating.Floor)
  {
    seq(TotalStars, i => i < rating.Floor)
  }

  function CountFilled(s: seq<bool>): nat {
    if s == [] then 0 else (if s[0] then 1 else 0) + CountFilled(s[1..])
  }

  /** The filled stars come first, and there are floor(rating) of them, clamped to 0..5. */
  lemma {:induction false} FilledStars(rating: real)
    ensures CountFilled(Stars(rating)) == if rating.Floor < 0 then 0 else if rating.Floor > 5 then 5 else rating.Floor
    ensures forall i, j :: 0 <= i < j < TotalStars && Stars(rating)[j] ==> Stars(rating)[i]
  {
    var s := Stars(rating);
    var k := if rating.Floor < 0 then 0 else if rating.Floor > 5 then 5 else rating.Floor;
    CountPrefix(s, k);
  }

  lemma {:induction false} CountPrefix(s: seq<bool>, k: nat)
    requires k <= |s| && forall i :: 0 <= i < |s| ==> (s[i] <==> i < k)
    ensures CountFilled(s) == k
    decreases |s|
  {
    if s != [] {
      if k > 0 {
        CountPrefix(s[1..], k - 1);
      } else {
        CountPrefix(s[1..], 0);
      }
    }
  }

  /** What `getRoomOccupancyType` returns: a label or the number itself. */
  datatype Occupancy = Label(text: string) | Number(value: real)

  /** `getRoomOccupancyType`: 1, 2, 3 are named; any other truthy number is returned; 0 or undefined is "Unknown". */
  function OccupancyType(occupancy: Option<real>): (r: Occupancy)
    ensures occupancy.None? || occupancy == Some(0.0) <==> r == Label("Unknown")
    ensures r == Label("Single") <==> occupancy == Some(1.0)
    ensures r == Label("Double") <==> occupancy == Some(2.0)
    ensures r == Label("Triple") <==> occupancy == Some(3.0)
    ensures r.Number? <==> occupancy.Some? && occupancy.value !in {0.0, 1.0, 2.0, 3.0}
    ensures r.Number? ==> r.value == occupancy.value
  {
    if occupancy.Some? && occupancy.value != 0.0 then
      if occupancy.value == 1.0 then Label("Single")
      else if occupancy.value == 2.0 then Label("Double")
      else if occupancy.value == 3.0 then Label("Triple")
      else Number(occupancy.value)
    else Label("Unknown")
  }

  /** The rating line of a room card: the stars of `averageRating || 0` when it has reviews, else "No ratings yet". */
  function RatingLine(reviewCount: Option<nat>, averageRating: Option<real>): (r: Option<seq<bool>>)
    ensures r.Some? <==> reviewCount.Some? && reviewCount.value > 0
    ensures r.Some? ==> r.value == Stars(if averageRating.Some? then averageRating.value else 0.0)
  {
    if reviewCount.Some? && reviewCount.value > 0 then
      Some(Stars(if averageRating.Some? && averageRating.value != 0.0 then averageRating.value else 0.0))
    else None
  }
}
