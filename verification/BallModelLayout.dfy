/** The section of a robot's ball, line by line. */
module BallModelLayout {
  import opened BallModelYaml
  import SortedStrings

  /** The five parameters that go from a robot's file to the simulator. */
  function RobotBall(slide: string, roll: string, switch: string, restitution: string, retention: string): map<string, string> {
    map["acc_slide_mm_s2" := slide, "acc_roll_mm_s2" := roll, "k_switch" := switch,
        "direct_kick" + "." + "normal_restitution" := restitution, "direct_kick" + "." + "tangent_retention" := retention]
  }

  predicate NoDot(s: string) {
    forall i :: 0 <= i < |s| ==> s[i] != '.'
  }

  lemma NestedParts(parent: string, child: string)
    requires NoDot(parent) && NoDot(child)
    ensures var k := parent + "." + child;
            '.' in k && Parent(k) == parent && Child(k) == child && Under(k, parent)
  {
    var k := parent + "." + child;
    assert k == parent + ("." + child) && k[|parent|] == '.';
    RunPrefix(c => c != '.', parent, "." + child);
    assert k[|parent| + 1..] == child && k[..|parent|] == parent;
    assert child == child + "";
    RunPrefix(c => c != '.', child, "");
    assert child[..|child|] == child;
  }

  lemma FlatsOf(ball: map<string, string>, a: string, b: string, d: string)
    requires a in ball && b in ball && d in ball
    ensures Flats(ball, [a, b, d]) == [Line(a, ball[a]), Line(b, ball[b]), Line(d, ball[d])]
  {
    hide Line;
    assert [a, b, d][..2] == [a, b] && [a, b][..1] == [a] && [a][..0] == [];
    assert Flats(ball, []) == [];
    assert Flats(ball, [a]) == [Line(a, ball[a])];
    assert Flats(ball, [a, b]) == [Line(a, ball[a]), Line(b, ball[b])];
  }

  lemma FamilyOf(ball: map<string, string>, parent: string, a: string, b: string)
    requires a in ball && b in ball && Under(a, parent) && Under(b, parent)
    ensures AllIn([a, b], ball) && Families(ball, [parent], [a, b]) == [ParentLine(parent), NestedLine(a, ball[a]), NestedLine(b, ball[b])]
  {
    hide ParentLine, NestedLine, Under;
    assert [a, b][..1] == [a] && [a][..0] == [] && [parent][..0] == [];
    assert Children(ball, parent, []) == [];
    assert Children(ball, parent, [a]) == [NestedLine(a, ball[a])];
    assert Children(ball, parent, [a, b]) == [NestedLine(a, ball[a]), NestedLine(b, ball[b])];
    assert Families(ball, [], [a, b]) == [];
  }

  ghost predicate AllIn(keys: seq<string>, ball: map<string, string>) {
    forall i :: 0 <= i < |keys| ==> keys[i] in ball
  }

  lemma RobotKeys(ball: map<string, string>, a: string, b: string, flat: seq<string>)
    requires '.' in a && '.' in b && Parent(a) == Parent(b) && a in ball && b in ball
    requires (forall k :: k in ball ==> k == a || k == b || k in flat) && forall i :: 0 <= i < |flat| ==> '.' !in flat[i]
    ensures NestedKeys(ball) == {a, b} && ParentKeys(ball) == {Parent(a)}
  {
    hide Parent;
  }

  lemma NoDotNotIn(s: string)
    requires NoDot(s)
    ensures '.' !in s
  {
  }

  lemma NestedOrder(p: string, x: string, y: string)
    requires x != "" && y != "" && x[0] < y[0]
    ensures SortedStrings.Sorted({p + "." + x, p + "." + y}) == [p + "." + x, p + "." + y]
  {
    var a, b := p + "." + x, p + "." + y;
    var n := |p| + 1;
    assert a[..n] == p + "." == b[..n] && a[n] == x[0] && b[n] == y[0];
    assert SortedStrings.DiffersAt(a, b, n);
    SortedStrings.LeExactly(a, b);
    SortedStrings.SortedTwo(a, b);
  }

  /** A ball with the three known keys and two children of one parent. */
  function Family(flat: seq<string>, p: string, x: string, y: string, values: seq<string>): map<string, string>
    requires |flat| == 3 && |values| == 5
  {
    map[flat[0] := values[0], flat[1] := values[1], flat[2] := values[2], p + "." + x := values[3], p + "." + y := values[4]]
  }

  lemma FamilyValues(flat: seq<string>, p: string, x: string, y: string, values: seq<string>)
    requires |flat| == 3 && |values| == 5 && flat[0] != flat[1] && flat[0] != flat[2] && flat[1] != flat[2]
    requires x != y && forall i :: 0 <= i < 3 ==> NoDot(flat[i])
    ensures var ball := Family(flat, p, x, y, values);
            var a, b := p + "." + x, p + "." + y;
            && (forall i :: 0 <= i < 3 ==> flat[i] in ball && ball[flat[i]] == values[i])
            && a in ball && b in ball && ball[a] == values[3] && ball[b] == values[4]
            && forall k :: k in ball ==> k == a || k == b || k in flat
  {
    var a, b := p + "." + x, p + "." + y;
    assert a[|p|] == '.' && b[|p|] == '.' && a[|p| + 1..] == x && b[|p| + 1..] == y;
    forall i | 0 <= i < 3 ensures flat[i] != a && flat[i] != b {
      NoDotNotIn(flat[i]);
    }
  }

  /** The section of such a ball: the known keys in their fixed order, indented by two, then the parent with its
      children in ascending order, indented by four. */
  lemma FamilySection(flat: seq<string>, p: string, x: string, y: string, values: seq<string>)
    requires flat == FLAT && |flat| == 3 && |values| == 5 && flat[0] != flat[1] && flat[0] != flat[2] && flat[1] != flat[2]
    requires NoDot(p) && NoDot(x) && NoDot(y) && x != "" && y != "" && x[0] < y[0] && forall i :: 0 <= i < 3 ==> NoDot(flat[i])
    ensures Print(Family(flat, p, x, y, values))
         == [HEADER]
            + ["  " + flat[0] + ": " + values[0], "  " + flat[1] + ": " + values[1], "  " + flat[2] + ": " + values[2]]
            + ["  " + p + ":", "    " + x + ": " + values[3], "    " + y + ": " + values[4]]
  {
    var ball := Family(flat, p, x, y, values);
    var a, b := p + "." + x, p + "." + y;
    FamilyValues(flat, p, x, y, values);
    NestedParts(p, x);
    NestedParts(p, y);
    forall i | 0 <= i < 3 ensures '.' !in flat[i] {
      NoDotNotIn(flat[i]);
    }
    hide Family, Parent, Child, Under, NoDot, Flats, Families, NestedKeys, ParentKeys, Print;
    RobotKeys(ball, a, b, flat);
    NestedOrder(p, x, y);
    SortedStrings.SortedOne(p);
    PrintIsBlock(ball);
    assert flat == [flat[0], flat[1], flat[2]];
    FlatsOf(ball, flat[0], flat[1], flat[2]);
    FamilyOf(ball, p, a, b);
  }

  lemma RobotNames()
    ensures FLAT == ["acc_slide_mm_s2", "acc_roll_mm_s2", "k_switch"] && HEADER == "ball_model:"
    ensures NoDot("acc_slide_mm_s2") && NoDot("acc_roll_mm_s2") && NoDot("k_switch")
    ensures FLAT[0] != FLAT[1] && FLAT[0] != FLAT[2] && FLAT[1] != FLAT[2]
  {
    assert |"acc_slide_mm_s2"| == 15 && |"acc_roll_mm_s2"| == 14 && |"k_switch"| == 8;
  }

  lemma PartNames()
    ensures NoDot("direct_kick") && NoDot("normal_restitution") && NoDot("tangent_retention")
    ensures "normal_restitution"[0] < "tangent_retention"[0]
  {
  }

  /** The five parameters of a robot's ball are printed in these lines, for all values. */
  lemma RobotSection(slide: string, roll: string, switch: string, restitution: string, retention: string)
    ensures Print(RobotBall(slide, roll, switch, restitution, retention))
         == ["ball_model:"]
            + ["  " + "acc_slide_mm_s2" + ": " + slide, "  " + "acc_roll_mm_s2" + ": " + roll, "  " + "k_switch" + ": " + switch]
            + ["  " + "direct_kick" + ":", "    " + "normal_restitution" + ": " + restitution, "    " + "tangent_retention" + ": " + retention]
  {
    RobotNames();
    PartNames();
    hide Print, NoDot;
    FamilySection(FLAT, "direct_kick", "normal_restitution", "tangent_retention", [slide, roll, switch, restitution, retention]);
  }
}
