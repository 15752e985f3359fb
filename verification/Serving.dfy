/** Which lanes a relay or a pass serves, and how many rows each of their claims takes. */
module Serving {
  import opened Rows
  import opened Registry
  import opened Store

  /** What the callers of `served_lanes` and `lane_claim_sizes` may refuse. */
  datatype Refusal = NoLanes | NotDeclared(lane: string) | TooSmall(name: string, size: int) | NotServed(lane: string)

  datatype Outcome<T> = Ok(value: T) | Refused(why: Refusal)

  /** The distinct lanes named: none, or one nobody declares, is refused. */
  method ServedLanes(rs: Receivers, members: seq<string>) returns (lanes: Outcome<seq<string>>)
    ensures lanes.Ok? <==> members != [] && forall i | 0 <= i < |members| :: members[i] in Lanes(rs)
    ensures lanes.Ok? ==> Distinct(lanes.value) && forall lane :: lane in lanes.value <==> lane in members
    ensures lanes.Refused? && members != [] ==>
              lanes.why.NotDeclared? && lanes.why.lane in members && lanes.why.lane !in Lanes(rs)
  {
    if members == [] {
      return Refused(NoLanes);
    }
    var distinct := [];
    var n := 0;
    while n < |members|
      invariant n <= |members| && Distinct(distinct)
      invariant forall lane :: lane in distinct <==> lane in members[..n]
      invariant forall i | 0 <= i < n :: members[i] in Lanes(rs)
    {
      if members[n] !in Lanes(rs) {
        return Refused(NotDeclared(members[n]));
      }
      assert members[..n + 1] == members[..n] + [members[n]];
      if members[n] !in distinct {
        distinct := distinct + [members[n]];
      }
      n := n + 1;
    }
    assert members[..n] == members;
    return Ok(distinct);
  }

  /** A size given, or the setting; below one is refused. */
  function ClaimSize(size: Option<int>, setting: nat, name: string): (r: Outcome<nat>)
    requires setting >= 1
    ensures r.Ok? <==> (size.Some? ==> size.value >= 1)
    ensures r.Ok? ==> r.value >= 1 && r.value == if size.Some? then size.value else setting
  {
    if size.None? then Ok(setting)
    else if size.value < 1 then Refused(TooSmall(name, size.value))
    else Ok(size.value)
  }

  function SizeOf(sizes: map<string, nat>, default: nat, lane: string): nat {
    if lane in sizes then sizes[lane] else default
  }

  /** How many rows a claim of each lane takes: its own size where it has one. An override
      below one, or of a lane not served, is refused. */
  method LaneClaimSizes(served: set<string>, batch: Option<int>, overrides: map<string, int>, setting: nat)
    returns (default: nat, sizes: map<string, nat>, refused: bool)
    requires setting >= 1
    ensures refused <==>
              (batch.Some? && batch.value < 1) || exists lane <- overrides :: lane !in served || overrides[lane] < 1
    ensures !refused ==> default == if batch.Some? then batch.value else setting
    ensures !refused ==> sizes.Keys == overrides.Keys && forall lane <- overrides :: sizes[lane] == overrides[lane]
    ensures !refused ==> forall lane :: SizeOf(sizes, default, lane) >= 1
    ensures !refused ==> forall lane ::
              SizeOf(sizes, default, lane) == if lane in overrides then overrides[lane] else default
  {
    sizes, default := map[], setting;
    var size := ClaimSize(batch, setting, "batch_size");
    refused := size.Refused?;
    if refused {
      return;
    }
    default := size.value;
    var left := overrides.Keys;
    while left != {}
      invariant left <= overrides.Keys && sizes.Keys == overrides.Keys - left
      invariant forall lane <- sizes :: lane in served && sizes[lane] == overrides[lane] >= 1
      decreases left
    {
      SomeKey(left);
      var lane :| lane in left;
      var own := ClaimSize(Some(overrides[lane]), setting, lane);
      refused := lane !in served || own.Refused?;
      if refused {
        return;
      }
      sizes := sizes[lane := own.value];
      left := left - {lane};
    }
  }

  /** The lanes a rotation visits: those the call has not closed. */
  function OpenLanes(lanes: seq<string>, closed: set<string>): (r: seq<string>)
    ensures forall lane :: lane in r <==> lane in lanes && lane !in closed
    ensures |r| <= |lanes| && (Distinct(lanes) ==> Distinct(r))
    ensures closed == {} ==> r == lanes
  {
    if lanes == [] then []
    else
      var rest := OpenLanes(lanes[1..], closed);
      assert Distinct(lanes) ==> lanes[0] !in lanes[1..] && Distinct(lanes[1..]);
      assert forall lane :: lane in lanes <==> lane == lanes[0] || lane in lanes[1..];
      if lanes[0] in closed then rest else [lanes[0]] + rest
  }
}
