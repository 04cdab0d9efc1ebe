/** GEOADD and then GEOPOS, through the store: what the geohash, the float64 score and the sorted set
    make together. */
module Geo {
  import opened Text
  import opened Order
  import opened ZSets
  import opened Keyspace
  import opened Commands
  import opened Answers
  import opened Morton

  // ---------------------------------------------------------------------------------------
  // A word is known by its number
  // ---------------------------------------------------------------------------------------

  function Shifted(w: bv64, j: nat): bv64 { if j == 0 then w else Shifted(w >> 1, j - 1) }

  lemma Two(w: bv64, v: bv64) requires v == w >> 2 ensures v == (w >> 1) >> 1 { }
  lemma Four(w: bv64, v: bv64) requires v == w >> 4 ensures v == (w >> 2) >> 2 { }
  lemma Eight(w: bv64, v: bv64) requires v == w >> 8 ensures v == (w >> 4) >> 4 { }
  lemma Sixteen(w: bv64, v: bv64) requires v == w >> 16 ensures v == (w >> 8) >> 8 { }
  lemma ThirtyTwo(w: bv64, v: bv64) requires v == w >> 32 ensures v == (w >> 16) >> 16 { }
  lemma SixtyFour(w: bv64) ensures (w >> 32) >> 32 == 0 { }

  lemma Shifted2(w: bv64, v: bv64, j: nat)
    requires v == w >> 2
    ensures Shifted(w, j + 2) == Shifted(v, j)
  {
    Two(w, v);
    assert Shifted(w, j + 2) == Shifted(w >> 1, j + 1);
    assert Shifted(w >> 1, j + 1) == Shifted((w >> 1) >> 1, j);
  }

  lemma Shifted4(w: bv64, v: bv64, j: nat)
    requires v == w >> 4
    ensures Shifted(w, j + 4) == Shifted(v, j)
  {
    Four(w, v);
    Shifted2(w, w >> 2, j + 2);
    Shifted2(w >> 2, v, j);
  }

  lemma Shifted8(w: bv64, v: bv64, j: nat)
    requires v == w >> 8
    ensures Shifted(w, j + 8) == Shifted(v, j)
  {
    Eight(w, v);
    Shifted4(w, w >> 4, j + 4);
    Shifted4(w >> 4, v, j);
  }

  lemma Shifted16(w: bv64, v: bv64, j: nat)
    requires v == w >> 16
    ensures Shifted(w, j + 16) == Shifted(v, j)
  {
    Sixteen(w, v);
    Shifted8(w, w >> 8, j + 8);
    Shifted8(w >> 8, v, j);
  }

  lemma Shifted32(w: bv64, v: bv64, j: nat)
    requires v == w >> 32
    ensures Shifted(w, j + 32) == Shifted(v, j)
  {
    ThirtyTwo(w, v);
    Shifted16(w, w >> 16, j + 16);
    Shifted16(w >> 16, v, j);
  }

  lemma ShiftedOut64(w: bv64)
    ensures Shifted(w, 64) == 0
  {
    Shifted32(w, w >> 32, 32);
    Shifted32(w >> 32, (w >> 32) >> 32, 0);
    SixtyFour(w);
  }

  ghost predicate IsHalf(a: bv64, half: bv64) { half == a >> 1 }

  lemma Halve(a: bv64, k: nat) returns (half: bv64)
    requires k > 0
    ensures IsHalf(a, half) && Shifted(a, k) == Shifted(half, k - 1)
    ensures Value64(a, k) == (if Low64(a) then 1 else 0) + 2 * Value64(half, k - 1)
  {
    half := a >> 1;
  }

  lemma HalvesDecide(a: bv64, b: bv64, half: bv64)
    requires Low64(a) == Low64(b) && IsHalf(a, half) && IsHalf(b, half)
    ensures a == b
  {
  }

  lemma {:induction false} ValueDecides(a: bv64, b: bv64, k: nat)
    requires Value64(a, k) == Value64(b, k) && Shifted(a, k) == Shifted(b, k)
    ensures a == b
  {
    if k > 0 {
      var a' := Halve(a, k);
      var b' := Halve(b, k);
      HalveNumber(Value64(a, k), Low64(a), Value64(a', k - 1));
      HalveNumber(Value64(b, k), Low64(b), Value64(b', k - 1));
      ValueDecides(a', b', k - 1);
      HalvesDecide(a, b, a');
    }
  }

  /** Two words with the same number are the same word. */
  lemma NumberDecides(a: bv64, b: bv64)
    requires Value64(a, 64) == Value64(b, 64)
    ensures a == b
  {
    ShiftedOut64(a);
    ShiftedOut64(b);
    ValueDecides(a, b, 64);
  }

  // ---------------------------------------------------------------------------------------
  // Through the store
  // ---------------------------------------------------------------------------------------

  /** The score that holds a word. */
  function ScoreOf(w: bv64): Score { Finite(Value64(w, 64) as real) }

  /** The environment encodes and decodes positions the way the server does. */
  ghost predicate UsesMorton(env: Env) {
    && (forall c: Coordinates, x: bv32, y: bv32 :: ValidCoordinates(c) && EncodesAs(Interleave(x, y), c, x, y) ==>
          env.geocode(Finite(c.longitude), Finite(c.latitude)) == Some(ScoreOf(ToFloat(Interleave(x, y)))))
    && (forall c: Coordinates :: !ValidCoordinates(c) ==> env.geocode(Finite(c.longitude), Finite(c.latitude)) == None)
    && (forall a: Score, b: Score :: !(a.Finite? && b.Finite?) ==> env.geocode(a, b) == None)
    && (forall w: bv64 :: env.position(ScoreOf(w)) == (Decode(w).longitude, Decode(w).latitude))
  }

  /** A score holds one word, so a position can be read off it. */
  lemma ScoreDecides(a: bv64, b: bv64)
    requires ScoreOf(a) == ScoreOf(b)
    ensures a == b
  {
    NumberDecides(a, b);
  }

  /** Storing one pair fails on another type, and else adds it to the scores of the key and reports whether
      the member is new. */
  lemma AddedOne(data: Data, key: string, p: Pair)
    ensures var r, before := ZAddTo(data, key, [p]), ScoresAt(data, key);
            && (r.Some? <==> (key in data ==> data[key].value.Zset?))
            && (r.Some? ==>
                  && ScoresAt(r.value.0, key) == before[p.member := p.score]
                  && r.value.1 == (if p.member in before then 0 else 1)
                  && key in r.value.0 && r.value.0[key].value.Zset?)
  {
    StoredBatch(data, key, [p]);
    assert [p][..0] == [];
  }

  /** The request asks for position `c`. */
  ghost predicate AsksFor(args: seq<string>, env: Env, c: Coordinates) {
    && |args| == 4
    && env.parseFloat(args[1]) == Some(Finite(c.longitude)) && env.parseFloat(args[2]) == Some(Finite(c.latitude))
  }

  /** The cells of a position, and the score of its code. */
  lemma ScoreOfCells(c: Coordinates, env: Env) returns (x: bv32, y: bv32)
    requires UsesMorton(env) && ValidCoordinates(c)
    ensures EncodesAs(Interleave(x, y), c, x, y)
    ensures env.geocode(Finite(c.longitude), Finite(c.latitude)) == Some(ScoreOf(ToFloat(Interleave(x, y))))
  {
    x, y := PositionHasCells(c);
  }

  /** GEOADD with two numbers is one ZADD of the score it encodes. */
  lemma GeoAddStoresOne(args: seq<string>, env: Env, data: Data, longitude: Score, latitude: Score, o: Outcome)
    requires |args| == 4 && o == Handle(GEOADD, args, env, data)
    requires env.parseFloat(args[1]) == Some(longitude) && env.parseFloat(args[2]) == Some(latitude)
    ensures match env.geocode(longitude, latitude)
            case None => o == Failed
            case Some(score) =>
              match ZAddTo(data, args[0], [Pair(args[3], score)])
              case None => o == Failed
              case Some((data', added)) => o == Done(data', Number(added))
  {
  }

  /** GEOADD succeeds if and only if the position is in range and the key is absent or holds a sorted set. It
      then adds the member with the float64 of its code to the scores of the key, and answers whether the
      member is new. */
  lemma GeoAddAnswers(args: seq<string>, env: Env, data: Data, c: Coordinates, o: Outcome) returns (x: bv32, y: bv32)
    requires UsesMorton(env) && AsksFor(args, env, c) && o == Handle(GEOADD, args, env, data)
    ensures o.Done? <==>
      && -180.0 <= c.longitude <= 180.0 && -85.05112878 <= c.latitude <= 85.05112878
      && (args[0] in data ==> data[args[0]].value.Zset?)
    ensures o.Done? ==> EncodesAs(Interleave(x, y), c, x, y)
    ensures o.Done? ==>
      && args[0] in o.data && o.data[args[0]].value.Zset?
      && ScoresAt(o.data, args[0]) == ScoresAt(data, args[0])[args[3] := ScoreOf(ToFloat(Interleave(x, y)))]
      && o.reply == Number(if args[3] in ScoresAt(data, args[0]) then 0 else 1)
  {
    x, y := 0, 0;
    GeoAddStoresOne(args, env, data, Finite(c.longitude), Finite(c.latitude), o);
    if ValidCoordinates(c) {
      x, y := ScoreOfCells(c, env);
      AddedOne(data, args[0], Pair(args[3], ScoreOf(ToFloat(Interleave(x, y)))));
    }
  }

  /** Without two finite numbers GEOADD fails. */
  lemma GeoAddNeedsNumbers(args: seq<string>, env: Env, data: Data)
    requires UsesMorton(env) && |args| == 4
    requires var a, b := env.parseFloat(args[1]), env.parseFloat(args[2]);
             !(a.Some? && a.value.Finite? && b.Some? && b.value.Finite?)
    ensures Handle(GEOADD, args, env, data) == Failed
  {
    var a, b := env.parseFloat(args[1]), env.parseFloat(args[2]);
    if a.Some? && b.Some? {
      GeoAddStoresOne(args, env, data, a.value, b.value, Handle(GEOADD, args, env, data));
    }
  }

  /** The code in numbers: the cells are so many of 2^26 equal parts of the two ranges, rounded down, and the
      score of a position below longitude 180 is the sum of their bits, those of the latitude cell weighing
      1, 4, 16 and so on, and those of the longitude cell 2, 8, 32 and so on. */
  lemma CodeInNumbers(c: Coordinates, x: bv32, y: bv32)
    requires ValidCoordinates(c) && EncodesAs(Interleave(x, y), c, x, y)
    ensures Value32(x, 32) == (67108864.0 * (c.latitude + 85.05112878) / 170.10225756).Floor
    ensures Value32(y, 32) == (67108864.0 * (c.longitude + 180.0) / 360.0).Floor
    ensures c.longitude < 180.0 ==>
      ScoreOf(ToFloat(Interleave(x, y))) == Finite(MortonSum(Value32(x, 32), Value32(y, 32), 32) as real)
  {
    CellIsFloor(x, NormalizedLatitude(c));
    CellIsFloor(y, NormalizedLongitude(c));
    ScoreOfPosition(Interleave(x, y), c, x, y);
    InterleaveIsMortonSum(x, y);
  }

  /** GEOPOS of one member that holds a code answers with the point the code decodes to. */
  lemma GeoPosAnswers(key: string, member: string, env: Env, data: Data, code: bv64)
    requires UsesMorton(env) && key in data && data[key].value.Zset? && member in data[key].value.zset.scores
    requires data[key].value.zset.scores[member] == ScoreOf(code)
    ensures Handle(GEOPOS, [key, member], env, data) ==
            Done(data, Positions([Some((Decode(code).longitude, Decode(code).latitude))]))
  {
    assert [key, member][1..] == [member];
    var points := Handle(GEOPOS, [key, member], env, data).reply.points;
    assert |points| == 1 && points[0] == Some((Decode(code).longitude, Decode(code).latitude));
  }

  lemma CellIsFloor(x: bv32, f: real)
    requires IsTruncation(x, f)
    ensures Value32(x, 32) == f.Floor
  {
  }

  /** Half a cell in degrees. */
  lemma HalfACellInNumbers(c: Coordinates, d: Coordinates)
    ensures WithinHalfACell(c, d) <==>
      && Abs(d.latitude - c.latitude) <= 170.10225756 / 67108864.0 / 2.0
      && Abs(d.longitude - c.longitude) <= 360.0 / 67108864.0 / 2.0
    ensures NormalizedLatitude(c) == 67108864.0 * (c.latitude + 85.05112878) / 170.10225756
  {
  }

  lemma CloseExactlyWhen(c: Coordinates, x: bv32, y: bv32, d: Coordinates)
    requires ValidCoordinates(c) && EncodesAs(Interleave(x, y), c, x, y) && d == Decode(ToFloat(Interleave(x, y)))
    ensures var cells := 67108864.0 * (c.latitude + 85.05112878) / 170.10225756;
            && Abs(d.latitude - c.latitude) <= 170.10225756 / 67108864.0 / 2.0
            && Abs(d.longitude - c.longitude) <= 360.0 / 67108864.0 / 2.0
            <==>
            c.longitude < 180.0 || cells.Floor % 2 == 0 || cells == cells.Floor as real
  {
    PositionRoundTrip(Interleave(x, y), c, x, y);
    CellIsFloor(x, NormalizedLatitude(c));
    HalfACellInNumbers(c, d);
  }

  /** GEOPOS right after a successful GEOADD answers with a point within half a grid cell of the one
      given, on both axes, if and only if the longitude is below its maximum, the latitude cell is
      even, or the latitude is on the lower edge of its cell. */
  lemma GeoPosAfterGeoAdd(args: seq<string>, env: Env, data: Data, c: Coordinates, o: Outcome) returns (d: Coordinates)
    requires UsesMorton(env) && AsksFor(args, env, c) && o == Handle(GEOADD, args, env, data) && o.Done?
    ensures Handle(GEOPOS, [args[0], args[3]], env, o.data) == Done(o.data, Positions([Some((d.longitude, d.latitude))]))
    ensures var cells := 67108864.0 * (c.latitude + 85.05112878) / 170.10225756;
            && Abs(d.latitude - c.latitude) <= 170.10225756 / 67108864.0 / 2.0
            && Abs(d.longitude - c.longitude) <= 360.0 / 67108864.0 / 2.0
            <==>
            c.longitude < 180.0 || cells.Floor % 2 == 0 || cells == cells.Floor as real
  {
    var x, y := GeoAddAnswers(args, env, data, c, o);
    d := Decode(ToFloat(Interleave(x, y)));
    GeoPosAnswers(args[0], args[3], env, o.data, ToFloat(Interleave(x, y)));
    CloseExactlyWhen(c, x, y, d);
  }
}
