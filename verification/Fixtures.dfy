/**
 The map's fixtures: which lines of a state file become entities, of what type and
 where, and which pads are added for teams without one.
 */
module Fixtures {
  import opened Bits
  import opened Lists
  import opened Quantization
  import opened EntityCodec
  import opened Bridge

  /** The type a line's fixture has, if the line holds one: crates, and seven kinds of buildings. */
  function TypeOn(line: StateLine): Option<int> {
    if line.Skipped? then None
    else if line.isCrate then Some(19)
    else if line.token == "r" then Some(27)
    else if line.token == "e" then Some(25)
    else if line.token == "s" then Some(29)
    else if line.token == "g" then Some(30)
    else if line.token == "f" then Some(26)
    else if line.token == "u" then Some(20)
    else if line.token == "h" then Some(35)
    else None
  }

  /** The lines that hold a fixture. */
  ghost predicate ListsFixtures(places: seq<nat>, lines: seq<StateLine>) {
    Increasing(places) && forall j: nat :: j in places <==> j < |lines| && TypeOn(lines[j]).Some?
  }

  /** The fixture of a line, under this id: unmanned, whole, on the team and in the place the line names. */
  predicate Stands(e: Entity, line: StateLine, netId: int) {
    TypeOn(line).Some? && e == Entity(netId, TypeOn(line).value, line.team, false, line.pos, line.rot, 1.0, 1.0, 25)
  }

  lemma {:induction false} LineFixture(line: StateLine, netId: int)
    ensures StateEntity(line, netId).Some? <==> TypeOn(line).Some?
    ensures StateEntity(line, netId).Some? ==> Stands(StateEntity(line, netId).value, line, netId)
  {
  }

  /** Every usable line gives one fixture, in order, numbered from 1; the others give nothing. */
  lemma {:induction false} LinesStand(sessions: map<nat, Session>, lines: seq<StateLine>, places: seq<nat>)
    requires ListsFixtures(places, lines)
    ensures var w := LoadLines(World(sessions, [], 1), lines);
            && w.sessions == sessions && |w.statics| == |places| && w.nextId == |places| + 1
            && forall i :: 0 <= i < |places| ==> places[i] < |lines| && Stands(w.statics[i], lines[places[i]], i + 1)
  {
    hide StateEntity, TypeOn, Stands;
    if lines == [] {
      SomethingIn(places);
    } else {
      var n := |lines| - 1;
      if TypeOn(lines[n]).Some? {
        assert n in places;
        LastIsGreatest(places, n);
        LinesStand(sessions, lines[..n], places[..|places| - 1]);
        LineFixture(lines[n], |places|);
      } else {
        assert n !in places;
        LinesStand(sessions, lines[..n], places);
        LineFixture(lines[n], |places| + 1);
      }
    }
  }

  /** A pad for a team that has none: its own side of the land, half way up the map, well above the ground. */
  function SparePad(team: int, netId: int, land: LandSummary): Entity {
    Entity(netId, 27, team, false,
           Vec3(if team == 1 then land.width * 0.42 else land.width * 0.58, land.height * 0.5, land.maxHeight + 200.0),
           Vec3(0.0, 0.0, 0.0), 1.0, 1.0, 25)
  }

  /** Some line holds a repair pad of the team. */
  ghost predicate LineHasPad(lines: seq<StateLine>, places: seq<nat>, team: int) {
    exists i :: 0 <= i < |places| && places[i] < |lines| && lines[places[i]].Fixture?
                && !lines[places[i]].isCrate && lines[places[i]].token == "r" && lines[places[i]].team == team
  }

  lemma {:induction false} PadsFromLines(statics: seq<Entity>, lines: seq<StateLine>, places: seq<nat>, team: int)
    requires |statics| == |places|
    requires forall i :: 0 <= i < |places| ==> places[i] < |lines| && Stands(statics[i], lines[places[i]], i + 1)
    ensures HasPad(statics, team) <==> LineHasPad(lines, places, team)
  {
    if HasPad(statics, team) {
      var i :| 0 <= i < |statics| && IsPadOf(statics[i], team);
      assert Stands(statics[i], lines[places[i]], i + 1);
    }
    if LineHasPad(lines, places, team) {
      var i :| 0 <= i < |places| && places[i] < |lines| && lines[places[i]].Fixture?
               && !lines[places[i]].isCrate && lines[places[i]].token == "r" && lines[places[i]].team == team;
      assert Stands(statics[i], lines[places[i]], i + 1);
      assert IsPadOf(statics[i], team);
    }
  }

  /**
   The whole bootstrap: one fixture for every usable line, in order and numbered from
   1, then a pad for team 1 and one for team 2 where no line held one, placed by the
   land or, without any, by a land of 1000 by 1000.
   */
  lemma {:induction false} BootstrapStands(lines: seq<StateLine>, land: Option<LandSummary>, places: seq<nat>)
    requires ListsFixtures(places, lines)
    ensures var (w, n) := (BootstrapOf(map[], lines, land), |places|);
            var l := if land.Some? then land.value else LandSummary(1000.0, 1000.0, 0.0);
            var one := if LineHasPad(lines, places, 1) then [] else [SparePad(1, n + 1, l)];
            var two := if LineHasPad(lines, places, 2) then [] else [SparePad(2, n + |one| + 1, l)];
            && w.sessions == map[] && |w.statics| == n + |one| + |two| && w.nextId == |w.statics| + 1
            && w.statics[n..] == one + two
            && forall i :: 0 <= i < n ==> places[i] < |lines| && Stands(w.statics[i], lines[places[i]], i + 1)
  {
    hide LoadLines, Stands, LineHasPad, HasPad, ListsFixtures;
    LinesStand(map[], lines, places);
    var loaded := LoadLines(World(map[], [], 1), lines);
    PadsFromLines(loaded.statics, lines, places, 1);
    PadsFromLines(loaded.statics, lines, places, 2);
  }
}
