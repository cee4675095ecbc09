/**
 * The JSON description written by OutputGen::makeJson: one object per
 * camera that has resolution groups, keyed by the first word of its name
 * in lower case; inside it one array per group that is not a viewfinder
 * group, keyed by the group label's text before the first '-' in lower
 * case; inside that one record per distinct base resolution (the token's
 * text before its first '@'), in first-occurrence order.
 *
 * The document is modelled as the structure the emitter walks, with a flag
 * for each comma it writes between items. Where the emitter places those
 * commas is modelled twice: as written, and corrected so that every list is
 * well separated.
 */
module Json {
  import opened Text
  import opened Resolution

  datatype Record = Record(resolution: string, viewFinder: string, aspectRatio: string, commaAfter: bool)
  datatype GroupEntry = GroupEntry(commaBefore: bool, key: string, records: seq<Record>)
  datatype CameraEntry = CameraEntry(commaBefore: bool, key: string, groups: seq<GroupEntry>)

  /** Which comma placement to follow: the emitter's own, or the corrected one. */
  datatype Commas = AsWritten | Corrected

  /** Finds the best viewfinder for a base resolution among a camera's groups; not part of this model. */
  type ViewfinderFinder = (string, seq<Group>, Screen) -> string

  // ---------------------------------------------------------------------
  // Keys
  // ---------------------------------------------------------------------

  /** The key the document uses for a label: its text before the first `sep`, lower-cased. */
  function WordKey(s: string, sep: char): (r: string)
    ensures |r| <= |s|
    ensures forall i :: 0 <= i < |r| ==> r[i] == LowerChar(s[i]) && s[i] != sep
    ensures |r| < |s| ==> s[|r|] == sep
  {
    Lower(BeforeFirst(s, sep))
  }

  /** The key of a camera: the first space-separated word of its name, lower-cased. */
  function CameraKey(name: string): (r: string)
    ensures |r| <= |name|
    ensures forall i :: 0 <= i < |r| ==> r[i] == LowerChar(name[i]) && name[i] != ' '
    ensures |r| < |name| ==> name[|r|] == ' '
  {
    WordKey(name, ' ')
  }

  /** The key of a group: its label's text before the first '-', lower-cased. */
  function GroupKey(kind: string): (r: string)
    ensures |r| <= |kind|
    ensures forall i :: 0 <= i < |r| ==> LowerChar(kind[i]) == r[i] && kind[i] != '-'
    ensures |r| != |kind| ==> kind[|r|] == '-'
  {
    WordKey(kind, '-')
  }

  /** The base resolution of a token: its text before the first '@'. */
  function Base(token: string): (r: string)
    ensures r <= token && '@' !in r
    ensures |r| < |token| ==> token[|r|] == '@'
  {
    BeforeFirst(token, '@')
  }

  /** The first part of a split is the first word, whatever follows the separator. */
  lemma {:induction false} FirstWord(word: string, sep: char, rest: string)
    requires sep !in word
    ensures BeforeFirst(word + [sep] + rest, sep) == word
  {
    if word != [] {
      assert (word + [sep] + rest)[1..] == word[1..] + [sep] + rest;
      FirstWord(word[1..], sep, rest);
    }
  }

  /** A label made of a word, the separator and anything after it has the word, lower-cased, as its key. */
  lemma WordKeyFirstWord(word: string, sep: char, rest: string)
    requires sep !in word
    ensures WordKey(word + [sep] + rest, sep) == Lower(word)
  {
    FirstWord(word, sep, rest);
  }

  // ---------------------------------------------------------------------
  // Which items are written
  // ---------------------------------------------------------------------

  /** The positions below n whose item `keep` accepts, in ascending order. */
  function Positions<T>(xs: seq<T>, keep: T -> bool, n: nat): (r: seq<nat>)
    requires n <= |xs|
    ensures forall k :: 0 <= k < |r| ==> r[k] < n && keep(xs[r[k]])
    ensures forall k, l :: 0 <= k < l < |r| ==> r[k] < r[l]
  {
    if n == 0 then []
    else if keep(xs[n - 1]) then Positions(xs, keep, n - 1) + [n - 1]
    else Positions(xs, keep, n - 1)
  }

  /** Every accepted position below n is listed. */
  lemma {:induction false} PositionsCover<T>(xs: seq<T>, keep: T -> bool, n: nat)
    requires n <= |xs|
    ensures forall i :: 0 <= i < n && keep(xs[i]) ==> i in Positions(xs, keep, n)
  {
    if n > 0 {
      PositionsCover(xs, keep, n - 1);
    }
  }

  /** At most one position per item, and an accepted first item comes first. */
  lemma {:induction false} PositionsFront<T>(xs: seq<T>, keep: T -> bool, n: nat)
    requires n <= |xs|
    ensures |Positions(xs, keep, n)| <= n
    ensures n > 0 && keep(xs[0]) ==> |Positions(xs, keep, n)| > 0 && Positions(xs, keep, n)[0] == 0
  {
    if n > 0 {
      PositionsFront(xs, keep, n - 1);
    }
  }

  function HasGroups(groups: seq<Group>): bool {
    groups != []
  }

  function NotViewfinder(g: Group): bool {
    !StartsWith(g.kind, "viewfinder")
  }

  /** The base resolutions of the tokens at positions `ps`: what the duplicate check has seen. */
  function Seen(tokens: seq<string>, ps: seq<nat>): (r: seq<string>)
    requires forall k :: 0 <= k < |ps| ==> ps[k] < |tokens|
    ensures |r| == |ps|
    ensures forall k :: 0 <= k < |ps| ==> r[k] == Base(tokens[ps[k]])
  {
    seq(|ps|, k requires 0 <= k < |ps| => Base(tokens[ps[k]]))
  }

  /**
   * The positions in tokens[..n] whose base resolution is written: a token
   * is skipped when its base resolution is among those already written.
   */
  function Firsts(tokens: seq<string>, n: nat): (r: seq<nat>)
    requires n <= |tokens|
    ensures forall k :: 0 <= k < |r| ==> r[k] < n
    ensures forall k, l :: 0 <= k < l < |r| ==> r[k] < r[l]
    decreases n
  {
    if n == 0 then []
    else
      var prev := Firsts(tokens, n - 1);
      if Base(tokens[n - 1]) in Seen(tokens, prev) then prev
      else prev + [n - 1]
  }

  /** At most one record per token, and the first token is always written. */
  lemma {:induction false} FirstsFront(tokens: seq<string>, n: nat)
    requires n <= |tokens|
    ensures |Firsts(tokens, n)| <= n
    ensures n > 0 ==> |Firsts(tokens, n)| > 0 && Firsts(tokens, n)[0] == 0
  {
    if n > 0 {
      FirstsFront(tokens, n - 1);
      if n == 1 {
        assert Seen(tokens, Firsts(tokens, 0)) == [];
      }
    }
  }

  predicate InRange(tokens: seq<string>, ps: seq<nat>) {
    forall k :: 0 <= k < |ps| ==> ps[k] < |tokens|
  }

  predicate DistinctBases(tokens: seq<string>, ps: seq<nat>)
    requires InRange(tokens, ps)
  {
    forall k, l :: 0 <= k < l < |ps| ==> Base(tokens[ps[k]]) != Base(tokens[ps[l]])
  }

  predicate FirstOccurrences(tokens: seq<string>, ps: seq<nat>)
    requires InRange(tokens, ps)
  {
    forall k, m :: 0 <= k < |ps| && 0 <= m < ps[k] ==> Base(tokens[m]) != Base(tokens[ps[k]])
  }

  /** The base resolutions written are distinct. */
  lemma {:induction false} FirstsDistinct(tokens: seq<string>, n: nat)
    requires n <= |tokens|
    ensures DistinctBases(tokens, Firsts(tokens, n))
    decreases n
  {
    if n > 0 {
      FirstsDistinct(tokens, n - 1);
      var prev := Firsts(tokens, n - 1);
      var b := Base(tokens[n - 1]);
      if b !in Seen(tokens, prev) {
        var r := prev + [n - 1];
        assert Firsts(tokens, n) == r;
        forall k, l | 0 <= k < l < |r| ensures Base(tokens[r[k]]) != Base(tokens[r[l]]) {
          assert r[k] == prev[k];
          if l == |prev| {
            assert Seen(tokens, prev)[k] == Base(tokens[r[k]]);
          } else {
            assert r[l] == prev[l];
          }
        }
      } else {
        assert Firsts(tokens, n) == prev;
      }
    }
  }

  /** Every token's base resolution is among those written. */
  lemma {:induction false} FirstsCover(tokens: seq<string>, n: nat)
    requires n <= |tokens|
    ensures forall m :: 0 <= m < n ==> Base(tokens[m]) in Seen(tokens, Firsts(tokens, n))
    decreases n
  {
    if n > 0 {
      FirstsCover(tokens, n - 1);
      FirstsCoverStep(tokens, n);
    }
  }

  lemma FirstsCoverStep(tokens: seq<string>, n: nat)
    requires 0 < n <= |tokens|
    requires forall m :: 0 <= m < n - 1 ==> Base(tokens[m]) in Seen(tokens, Firsts(tokens, n - 1))
    ensures forall m :: 0 <= m < n ==> Base(tokens[m]) in Seen(tokens, Firsts(tokens, n))
  {
    var prev := Firsts(tokens, n - 1);
    var seen := Seen(tokens, prev);
    if Base(tokens[n - 1]) !in seen {
      assert Seen(tokens, prev + [n - 1]) == seen + [Base(tokens[n - 1])];
    }
  }

  /** A position is written only when no earlier token has the same base resolution. */
  lemma {:induction false} FirstsFirst(tokens: seq<string>, n: nat)
    requires n <= |tokens|
    ensures FirstOccurrences(tokens, Firsts(tokens, n))
    decreases n
  {
    if n > 0 {
      FirstsFirst(tokens, n - 1);
      FirstsCover(tokens, n - 1);
      var prev := Firsts(tokens, n - 1);
      var b := Base(tokens[n - 1]);
      if b !in Seen(tokens, prev) {
        var r := prev + [n - 1];
        assert Firsts(tokens, n) == r;
        forall k, m | 0 <= k < |r| && 0 <= m < r[k] ensures Base(tokens[m]) != Base(tokens[r[k]]) {
          if k < |prev| {
            assert r[k] == prev[k];
          } else {
            assert Base(tokens[m]) in Seen(tokens, prev);
          }
        }
      } else {
        assert Firsts(tokens, n) == prev;
      }
    }
  }

  /**
   * The records for the tokens at positions `ps`. As written, a record is
   * followed by a comma unless its token is the group's last one;
   * corrected, every record but the last one is.
   */
  function RecordsAt(mode: Commas, tokens: seq<string>, ps: seq<nat>, camGroups: seq<Group>, screen: Screen,
                     findViewfinder: ViewfinderFinder, aspect: string -> string): (r: seq<Record>)
    requires forall k :: 0 <= k < |ps| ==> ps[k] < |tokens|
    ensures |r| == |ps|
    ensures forall k :: 0 <= k < |ps| ==>
      r[k] == Record(Base(tokens[ps[k]]), findViewfinder(Base(tokens[ps[k]]), camGroups, screen), aspect(Base(tokens[ps[k]])),
                     if mode == AsWritten then ps[k] != |tokens| - 1 else k < |ps| - 1)
  {
    seq(|ps|, k requires 0 <= k < |ps| =>
      var b := Base(tokens[ps[k]]);
      Record(b, findViewfinder(b, camGroups, screen), aspect(b),
             if mode == AsWritten then ps[k] != |tokens| - 1 else k < |ps| - 1))
  }

  /**
   * The records written for one group: one per first occurrence of a base
   * resolution, so never more than there are tokens, and the first token's
   * base resolution always comes first.
   */
  function EmitRecords(mode: Commas, tokens: seq<string>, camGroups: seq<Group>, screen: Screen,
                       findViewfinder: ViewfinderFinder, aspect: string -> string): (r: seq<Record>)
    ensures |r| <= |tokens|
    ensures tokens != [] ==> r != [] && r[0].resolution == Base(tokens[0])
  {
    FirstsFront(tokens, |tokens|);
    RecordsAt(mode, tokens, Firsts(tokens, |tokens|), camGroups, screen, findViewfinder, aspect)
  }

  predicate HasResolution(records: seq<Record>, b: string) {
    exists k :: 0 <= k < |records| && records[k].resolution == b
  }

  predicate IsBaseOf(tokens: seq<string>, b: string) {
    exists m :: 0 <= m < |tokens| && Base(tokens[m]) == b
  }

  /** Every token's base resolution has exactly one record, and every record is some token's base resolution. */
  lemma EmitRecordsEachBase(mode: Commas, tokens: seq<string>, camGroups: seq<Group>, screen: Screen,
                            findViewfinder: ViewfinderFinder, aspect: string -> string)
    ensures var r := EmitRecords(mode, tokens, camGroups, screen, findViewfinder, aspect);
      && (forall k, l :: 0 <= k < l < |r| ==> r[k].resolution != r[l].resolution)
      && (forall m :: 0 <= m < |tokens| ==> HasResolution(r, Base(tokens[m])))
      && (forall k :: 0 <= k < |r| ==> IsBaseOf(tokens, r[k].resolution))
  {
    var ps := Firsts(tokens, |tokens|);
    var r := EmitRecords(mode, tokens, camGroups, screen, findViewfinder, aspect);
    FirstsDistinct(tokens, |tokens|);
    FirstsCover(tokens, |tokens|);
    forall m | 0 <= m < |tokens| ensures HasResolution(r, Base(tokens[m])) {
      var k :| 0 <= k < |ps| && Seen(tokens, ps)[k] == Base(tokens[m]);
      assert r[k].resolution == Base(tokens[m]);
    }
    forall k | 0 <= k < |r| ensures IsBaseOf(tokens, r[k].resolution) {
      assert Base(tokens[ps[k]]) == r[k].resolution;
    }
  }

  /**
   * The arrays written for one camera: one per group that is not a
   * viewfinder group, so never more than there are groups; a first group
   * that is not a viewfinder group gives the first array, with no comma
   * before it.
   */
  function EmitGroups(mode: Commas, groups: seq<Group>, screen: Screen,
                      findViewfinder: ViewfinderFinder, aspect: string -> string): (r: seq<GroupEntry>)
    ensures |r| <= |groups|
    ensures groups != [] && NotViewfinder(groups[0]) ==>
      r != [] && r[0].key == GroupKey(groups[0].kind) && !r[0].commaBefore
  {
    GroupsUpToAt(mode, groups, |groups|, screen, findViewfinder, aspect);
    PositionsFront(groups, NotViewfinder, |groups|);
    GroupsUpTo(mode, groups, |groups|, screen, findViewfinder, aspect)
  }

  /** The arrays written for groups[..j], one group after the other. */
  function GroupsUpTo(mode: Commas, groups: seq<Group>, j: nat, screen: Screen,
                      findViewfinder: ViewfinderFinder, aspect: string -> string): seq<GroupEntry>
    requires j <= |groups|
  {
    if j == 0 then []
    else
      var prev := GroupsUpTo(mode, groups, j - 1, screen, findViewfinder, aspect);
      if NotViewfinder(groups[j - 1]) then
        prev + [GroupEntry(if mode == AsWritten then j - 1 > 0 else prev != [],
                           GroupKey(groups[j - 1].kind),
                           EmitRecords(mode, groups[j - 1].tokens, groups, screen, findViewfinder, aspect))]
      else prev
  }

  /** The same arrays, listed by the positions of the groups written. */
  lemma {:induction false} GroupsUpToAt(mode: Commas, groups: seq<Group>, j: nat, screen: Screen,
                                        findViewfinder: ViewfinderFinder, aspect: string -> string)
    requires j <= |groups|
    ensures GroupsUpTo(mode, groups, j, screen, findViewfinder, aspect)
         == GroupsAt(mode, groups, Positions(groups, NotViewfinder, j), screen, findViewfinder, aspect)
  {
    if j == 0 {
      assert Positions(groups, NotViewfinder, 0) == [];
    } else {
      GroupsUpToAt(mode, groups, j - 1, screen, findViewfinder, aspect);
      GroupsUpToStep(mode, groups, j - 1, screen, findViewfinder, aspect);
    }
  }

  lemma GroupsUpToStep(mode: Commas, groups: seq<Group>, j: nat, screen: Screen,
                       findViewfinder: ViewfinderFinder, aspect: string -> string)
    requires j < |groups|
    requires GroupsUpTo(mode, groups, j, screen, findViewfinder, aspect)
          == GroupsAt(mode, groups, Positions(groups, NotViewfinder, j), screen, findViewfinder, aspect)
    ensures GroupsUpTo(mode, groups, j + 1, screen, findViewfinder, aspect)
         == GroupsAt(mode, groups, Positions(groups, NotViewfinder, j + 1), screen, findViewfinder, aspect)
  {
    if NotViewfinder(groups[j]) {
      var ps := Positions(groups, NotViewfinder, j);
      var prev := GroupsUpTo(mode, groups, j, screen, findViewfinder, aspect);
      var entry := GroupEntry(if mode == AsWritten then j > 0 else |ps| > 0, GroupKey(groups[j].kind),
                              EmitRecords(mode, groups[j].tokens, groups, screen, findViewfinder, aspect));
      assert |prev| == |ps|;
      assert GroupsUpTo(mode, groups, j + 1, screen, findViewfinder, aspect) == prev + [entry];
      PositionsKeep(groups, NotViewfinder, j);
      GroupsAtGrow(mode, groups, ps, j, screen, findViewfinder, aspect);
    } else {
      PositionsSkip(groups, NotViewfinder, j);
    }
  }

  /** The arrays written for the groups at positions ps. */
  function GroupsAt(mode: Commas, groups: seq<Group>, ps: seq<nat>, screen: Screen,
                    findViewfinder: ViewfinderFinder, aspect: string -> string): (r: seq<GroupEntry>)
    requires forall k :: 0 <= k < |ps| ==> ps[k] < |groups|
    ensures |r| == |ps|
    ensures forall k :: 0 <= k < |ps| ==>
      r[k] == GroupEntry(if mode == AsWritten then ps[k] > 0 else k > 0,
                         GroupKey(groups[ps[k]].kind),
                         EmitRecords(mode, groups[ps[k]].tokens, groups, screen, findViewfinder, aspect))
  {
    seq(|ps|, k requires 0 <= k < |ps| =>
      GroupEntry(if mode == AsWritten then ps[k] > 0 else k > 0,
                 GroupKey(groups[ps[k]].kind),
                 EmitRecords(mode, groups[ps[k]].tokens, groups, screen, findViewfinder, aspect)))
  }

  /**
   * The whole document: one object per camera that has groups, so never
   * more than there are cameras; a first camera with groups gives the first
   * object, with no comma before it. The resolution lists are indexed by
   * camera, so there is one per camera.
   */
  function Document(mode: Commas, cameras: seq<Camera>, resolutions: seq<seq<Group>>, screen: Screen,
                    findViewfinder: ViewfinderFinder, aspect: string -> string): (r: seq<CameraEntry>)
    requires |cameras| <= |resolutions|
    ensures |r| <= |cameras|
    ensures cameras != [] && resolutions[0] != [] ==>
      r != [] && r[0].key == CameraKey(cameras[0].name) && !r[0].commaBefore
  {
    CamerasUpToAt(mode, cameras, resolutions, |cameras|, screen, findViewfinder, aspect);
    PositionsFront(resolutions, HasGroups, |cameras|);
    CamerasUpTo(mode, cameras, resolutions, |cameras|, screen, findViewfinder, aspect)
  }

  /** The objects written for cameras[..i], one camera after the other. */
  function CamerasUpTo(mode: Commas, cameras: seq<Camera>, resolutions: seq<seq<Group>>, i: nat, screen: Screen,
                       findViewfinder: ViewfinderFinder, aspect: string -> string): seq<CameraEntry>
    requires i <= |cameras| <= |resolutions|
  {
    if i == 0 then []
    else
      var prev := CamerasUpTo(mode, cameras, resolutions, i - 1, screen, findViewfinder, aspect);
      if HasGroups(resolutions[i - 1]) then
        prev + [CameraEntry(if mode == AsWritten then i - 1 > 0 else prev != [],
                            CameraKey(cameras[i - 1].name),
                            EmitGroups(mode, resolutions[i - 1], screen, findViewfinder, aspect))]
      else prev
  }

  /** The same objects, listed by the positions of the cameras written. */
  lemma {:induction false} CamerasUpToAt(mode: Commas, cameras: seq<Camera>, resolutions: seq<seq<Group>>, i: nat, screen: Screen,
                                         findViewfinder: ViewfinderFinder, aspect: string -> string)
    requires i <= |cameras| <= |resolutions|
    ensures CamerasUpTo(mode, cameras, resolutions, i, screen, findViewfinder, aspect)
         == CamerasAt(mode, cameras, resolutions, Positions(resolutions, HasGroups, i), screen, findViewfinder, aspect)
  {
    if i == 0 {
      assert Positions(resolutions, HasGroups, 0) == [];
    } else {
      CamerasUpToAt(mode, cameras, resolutions, i - 1, screen, findViewfinder, aspect);
      CamerasUpToStep(mode, cameras, resolutions, i - 1, screen, findViewfinder, aspect);
    }
  }

  lemma CamerasUpToStep(mode: Commas, cameras: seq<Camera>, resolutions: seq<seq<Group>>, i: nat, screen: Screen,
                        findViewfinder: ViewfinderFinder, aspect: string -> string)
    requires i < |cameras| <= |resolutions|
    requires CamerasUpTo(mode, cameras, resolutions, i, screen, findViewfinder, aspect)
          == CamerasAt(mode, cameras, resolutions, Positions(resolutions, HasGroups, i), screen, findViewfinder, aspect)
    ensures CamerasUpTo(mode, cameras, resolutions, i + 1, screen, findViewfinder, aspect)
         == CamerasAt(mode, cameras, resolutions, Positions(resolutions, HasGroups, i + 1), screen, findViewfinder, aspect)
  {
    if HasGroups(resolutions[i]) {
      var ps := Positions(resolutions, HasGroups, i);
      var prev := CamerasUpTo(mode, cameras, resolutions, i, screen, findViewfinder, aspect);
      var entry := CameraEntry(if mode == AsWritten then i > 0 else |ps| > 0, CameraKey(cameras[i].name),
                               EmitGroups(mode, resolutions[i], screen, findViewfinder, aspect));
      assert |prev| == |ps|;
      assert CamerasUpTo(mode, cameras, resolutions, i + 1, screen, findViewfinder, aspect) == prev + [entry];
      PositionsKeep(resolutions, HasGroups, i);
      CamerasAtGrow(mode, cameras, resolutions, ps, i, screen, findViewfinder, aspect);
    } else {
      PositionsSkip(resolutions, HasGroups, i);
    }
  }

  /** The objects written for the cameras at positions ps. */
  function CamerasAt(mode: Commas, cameras: seq<Camera>, resolutions: seq<seq<Group>>, ps: seq<nat>, screen: Screen,
                     findViewfinder: ViewfinderFinder, aspect: string -> string): (r: seq<CameraEntry>)
    requires |cameras| <= |resolutions| && forall k :: 0 <= k < |ps| ==> ps[k] < |cameras|
    ensures |r| == |ps|
    ensures forall k :: 0 <= k < |ps| ==>
      r[k] == CameraEntry(if mode == AsWritten then ps[k] > 0 else k > 0,
                          CameraKey(cameras[ps[k]].name),
                          EmitGroups(mode, resolutions[ps[k]], screen, findViewfinder, aspect))
  {
    seq(|ps|, k requires 0 <= k < |ps| =>
      CameraEntry(if mode == AsWritten then ps[k] > 0 else k > 0,
                  CameraKey(cameras[ps[k]].name),
                  EmitGroups(mode, resolutions[ps[k]], screen, findViewfinder, aspect)))
  }

  predicate HasObject(doc: seq<CameraEntry>, key: string, groups: seq<GroupEntry>) {
    exists k :: 0 <= k < |doc| && doc[k].key == key && doc[k].groups == groups
  }

  predicate FromCamera(mode: Commas, entry: CameraEntry, cameras: seq<Camera>, resolutions: seq<seq<Group>>, screen: Screen,
                       findViewfinder: ViewfinderFinder, aspect: string -> string)
    requires |cameras| <= |resolutions|
  {
    exists i :: 0 <= i < |cameras| && resolutions[i] != [] && entry.key == CameraKey(cameras[i].name)
      && entry.groups == EmitGroups(mode, resolutions[i], screen, findViewfinder, aspect)
  }

  /**
   * Every camera that has groups gets one object with its key and its
   * arrays, and every object comes from such a camera; cameras without
   * groups are skipped.
   */
  lemma DocumentCameras(mode: Commas, cameras: seq<Camera>, resolutions: seq<seq<Group>>, screen: Screen,
                        findViewfinder: ViewfinderFinder, aspect: string -> string)
    requires |cameras| <= |resolutions|
    ensures var doc := Document(mode, cameras, resolutions, screen, findViewfinder, aspect);
      && (forall i :: 0 <= i < |cameras| && resolutions[i] != [] ==>
            HasObject(doc, CameraKey(cameras[i].name), EmitGroups(mode, resolutions[i], screen, findViewfinder, aspect)))
      && (forall k :: 0 <= k < |doc| ==> FromCamera(mode, doc[k], cameras, resolutions, screen, findViewfinder, aspect))
  {
    CamerasUpToAt(mode, cameras, resolutions, |cameras|, screen, findViewfinder, aspect);
    var ps := Positions(resolutions, HasGroups, |cameras|);
    PositionsCover(resolutions, HasGroups, |cameras|);
    var doc := Document(mode, cameras, resolutions, screen, findViewfinder, aspect);
    forall i | 0 <= i < |cameras| && resolutions[i] != []
      ensures HasObject(doc, CameraKey(cameras[i].name), EmitGroups(mode, resolutions[i], screen, findViewfinder, aspect))
    {
      assert HasGroups(resolutions[i]);
      var k :| 0 <= k < |ps| && ps[k] == i;
      assert doc[k].key == CameraKey(cameras[i].name);
    }
    forall k | 0 <= k < |doc| ensures FromCamera(mode, doc[k], cameras, resolutions, screen, findViewfinder, aspect) {
      assert HasGroups(resolutions[ps[k]]);
    }
  }

  predicate HasArray(entries: seq<GroupEntry>, key: string, records: seq<Record>) {
    exists k :: 0 <= k < |entries| && entries[k].key == key && entries[k].records == records
  }

  predicate FromGroup(mode: Commas, entry: GroupEntry, groups: seq<Group>, screen: Screen,
                      findViewfinder: ViewfinderFinder, aspect: string -> string)
  {
    exists j :: 0 <= j < |groups| && !StartsWith(groups[j].kind, "viewfinder") && entry.key == GroupKey(groups[j].kind)
      && entry.records == EmitRecords(mode, groups[j].tokens, groups, screen, findViewfinder, aspect)
  }

  /**
   * Every group whose label does not start with "viewfinder" gets one array
   * with its key and its records, and every array comes from such a group.
   */
  lemma GroupsSkipViewfinder(mode: Commas, groups: seq<Group>, screen: Screen,
                             findViewfinder: ViewfinderFinder, aspect: string -> string)
    ensures var r := EmitGroups(mode, groups, screen, findViewfinder, aspect);
      && (forall j :: 0 <= j < |groups| && !StartsWith(groups[j].kind, "viewfinder") ==>
            HasArray(r, GroupKey(groups[j].kind), EmitRecords(mode, groups[j].tokens, groups, screen, findViewfinder, aspect)))
      && (forall k :: 0 <= k < |r| ==> FromGroup(mode, r[k], groups, screen, findViewfinder, aspect))
  {
    GroupsUpToAt(mode, groups, |groups|, screen, findViewfinder, aspect);
    var ps := Positions(groups, NotViewfinder, |groups|);
    PositionsCover(groups, NotViewfinder, |groups|);
    var r := EmitGroups(mode, groups, screen, findViewfinder, aspect);
    forall j | 0 <= j < |groups| && !StartsWith(groups[j].kind, "viewfinder")
      ensures HasArray(r, GroupKey(groups[j].kind), EmitRecords(mode, groups[j].tokens, groups, screen, findViewfinder, aspect))
    {
      assert NotViewfinder(groups[j]);
      var k :| 0 <= k < |ps| && ps[k] == j;
      assert r[k].key == GroupKey(groups[j].kind);
    }
    forall k | 0 <= k < |r| ensures FromGroup(mode, r[k], groups, screen, findViewfinder, aspect) {
      assert NotViewfinder(groups[ps[k]]);
    }
  }

  // ---------------------------------------------------------------------
  // Separators
  // ---------------------------------------------------------------------

  predicate RecordsSeparated(records: seq<Record>) {
    forall k :: 0 <= k < |records| ==> records[k].commaAfter == (k < |records| - 1)
  }

  predicate GroupsSeparated(groups: seq<GroupEntry>) {
    forall k :: 0 <= k < |groups| ==> groups[k].commaBefore == (k > 0) && RecordsSeparated(groups[k].records)
  }

  /** Every list and object of the document has a comma between consecutive items and nowhere else. */
  predicate WellSeparated(doc: seq<CameraEntry>) {
    forall k :: 0 <= k < |doc| ==> doc[k].commaBefore == (k > 0) && GroupsSeparated(doc[k].groups)
  }

  /** With the corrected placement every document is well separated. */
  lemma CorrectedWellSeparated(cameras: seq<Camera>, resolutions: seq<seq<Group>>, screen: Screen,
                               findViewfinder: ViewfinderFinder, aspect: string -> string)
    requires |cameras| <= |resolutions|
    ensures WellSeparated(Document(Corrected, cameras, resolutions, screen, findViewfinder, aspect))
  {
    CamerasUpToAt(Corrected, cameras, resolutions, |cameras|, screen, findViewfinder, aspect);
    var ps := Positions(resolutions, HasGroups, |cameras|);
    var doc := Document(Corrected, cameras, resolutions, screen, findViewfinder, aspect);
    forall k | 0 <= k < |doc| ensures doc[k].commaBefore == (k > 0) && GroupsSeparated(doc[k].groups) {
      assert doc[k].groups == EmitGroups(Corrected, resolutions[ps[k]], screen, findViewfinder, aspect);
      CorrectedGroupsSeparated(resolutions[ps[k]], screen, findViewfinder, aspect);
    }
  }

  lemma CorrectedGroupsSeparated(groups: seq<Group>, screen: Screen, findViewfinder: ViewfinderFinder, aspect: string -> string)
    ensures GroupsSeparated(EmitGroups(Corrected, groups, screen, findViewfinder, aspect))
  {
    GroupsUpToAt(Corrected, groups, |groups|, screen, findViewfinder, aspect);
    var ps := Positions(groups, NotViewfinder, |groups|);
    var r := EmitGroups(Corrected, groups, screen, findViewfinder, aspect);
    forall k | 0 <= k < |r| ensures r[k].commaBefore == (k > 0) && RecordsSeparated(r[k].records) {
      assert r[k].records == EmitRecords(Corrected, groups[ps[k]].tokens, groups, screen, findViewfinder, aspect);
    }
  }

  /**
   * As written, a group's records are well separated exactly when its last
   * token is written, i.e. its base resolution is not a repeat.
   */
  lemma AsWrittenRecordsSeparated(tokens: seq<string>, camGroups: seq<Group>, screen: Screen,
                                  findViewfinder: ViewfinderFinder, aspect: string -> string)
    ensures RecordsSeparated(EmitRecords(AsWritten, tokens, camGroups, screen, findViewfinder, aspect))
      <==> tokens == [] || |tokens| - 1 in Firsts(tokens, |tokens|)
  {
    var ps := Firsts(tokens, |tokens|);
    if tokens != [] {
      FirstsCover(tokens, |tokens|);
      assert Base(tokens[0]) in Seen(tokens, ps);
      LastCommaAsWritten(tokens, ps, camGroups, screen, findViewfinder, aspect);
    }
  }

  /** As written, records at increasing positions are well separated exactly when the last one is the group's last token. */
  lemma LastCommaAsWritten(tokens: seq<string>, ps: seq<nat>, camGroups: seq<Group>, screen: Screen,
                           findViewfinder: ViewfinderFinder, aspect: string -> string)
    requires ps != [] && InRange(tokens, ps)
    requires forall k, l :: 0 <= k < l < |ps| ==> ps[k] < ps[l]
    ensures RecordsSeparated(RecordsAt(AsWritten, tokens, ps, camGroups, screen, findViewfinder, aspect))
      <==> |tokens| - 1 in ps
  {
    var r := RecordsAt(AsWritten, tokens, ps, camGroups, screen, findViewfinder, aspect);
    var last := |ps| - 1;
    if |tokens| - 1 in ps {
      assert ps[last] == |tokens| - 1;
      forall k | 0 <= k < |ps| ensures r[k].commaAfter == (k < |ps| - 1) {
        if k < last {
          assert ps[k] < ps[last];
        }
      }
    } else {
      assert r[last].commaAfter;
    }
  }

  /** As written, a camera's arrays are separated correctly exactly when its first group is not a viewfinder group. */
  lemma AsWrittenGroupsLead(groups: seq<Group>, screen: Screen, findViewfinder: ViewfinderFinder, aspect: string -> string)
    ensures var r := EmitGroups(AsWritten, groups, screen, findViewfinder, aspect);
      (forall k :: 0 <= k < |r| ==> r[k].commaBefore == (k > 0))
        <==> r == [] || NotViewfinder(groups[0])
  {
    GroupsUpToAt(AsWritten, groups, |groups|, screen, findViewfinder, aspect);
    var ps := Positions(groups, NotViewfinder, |groups|);
    PositionsCover(groups, NotViewfinder, |groups|);
    var r := EmitGroups(AsWritten, groups, screen, findViewfinder, aspect);
    if ps != [] {
      if NotViewfinder(groups[0]) {
        assert 0 in ps;
        forall k | 0 < k < |ps| ensures ps[k] > 0 {
          assert ps[0] < ps[k];
        }
      } else {
        assert ps[0] != 0;
        assert r[0].commaBefore;
      }
    }
  }

  /** As written, the camera objects are separated correctly exactly when the first camera has groups. */
  lemma AsWrittenCamerasLead(cameras: seq<Camera>, resolutions: seq<seq<Group>>, screen: Screen,
                             findViewfinder: ViewfinderFinder, aspect: string -> string)
    requires |cameras| <= |resolutions|
    ensures var r := Document(AsWritten, cameras, resolutions, screen, findViewfinder, aspect);
      (forall k :: 0 <= k < |r| ==> r[k].commaBefore == (k > 0))
        <==> r == [] || HasGroups(resolutions[0])
  {
    CamerasUpToAt(AsWritten, cameras, resolutions, |cameras|, screen, findViewfinder, aspect);
    var ps := Positions(resolutions, HasGroups, |cameras|);
    PositionsCover(resolutions, HasGroups, |cameras|);
    var r := Document(AsWritten, cameras, resolutions, screen, findViewfinder, aspect);
    if ps != [] {
      if HasGroups(resolutions[0]) {
        assert 0 in ps;
        forall k | 0 < k < |ps| ensures ps[k] > 0 {
          assert ps[0] < ps[k];
        }
      } else {
        assert ps[0] != 0;
        assert r[0].commaBefore;
      }
    }
  }

  /** Two frame-rate variants of one resolution: the single record written is followed by a comma. */
  lemma TrailingCommaAfterRepeat(camGroups: seq<Group>, screen: Screen, findViewfinder: ViewfinderFinder, aspect: string -> string)
    ensures var r := EmitRecords(AsWritten, ["640x480@30/1", "640x480@15/1"], camGroups, screen, findViewfinder, aspect);
      |r| == 1 && r[0].resolution == "640x480" && r[0].commaAfter
  {
    var tokens := ["640x480@30/1", "640x480@15/1"];
    assert tokens[0] == "640x480" + ['@'] + "30/1";
    assert tokens[1] == "640x480" + ['@'] + "15/1";
    FirstWord("640x480", '@', "30/1");
    FirstWord("640x480", '@', "15/1");
    assert Seen(tokens, Firsts(tokens, 0)) == [];
    FirstsNew(tokens, 0);
    assert Seen(tokens, Firsts(tokens, 1)) == ["640x480"];
    FirstsRepeat(tokens, 1);
  }

  /** A viewfinder group listed first: the array written after it starts with a comma. */
  lemma LeadingCommaAfterViewfinder(tokens: seq<string>, screen: Screen, findViewfinder: ViewfinderFinder, aspect: string -> string)
    ensures var r := EmitGroups(AsWritten, [Group("viewfinder-resolution-values", []), Group("image-resolution-values", tokens)],
                                screen, findViewfinder, aspect);
      |r| == 1 && r[0].commaBefore
  {
    var groups := [Group("viewfinder-resolution-values", []), Group("image-resolution-values", tokens)];
    assert !NotViewfinder(groups[0]);
    assert NotViewfinder(groups[1]) by {
      assert groups[1].kind[0] == 'i';
    }
    assert GroupsUpTo(AsWritten, groups, 1, screen, findViewfinder, aspect) == [];
  }

  /** A first camera without groups: the object written for the next camera starts with a comma. */
  lemma LeadingCommaAfterEmptyCamera(front: Camera, back: Camera, groups: seq<Group>, screen: Screen,
                                     findViewfinder: ViewfinderFinder, aspect: string -> string)
    requires groups != []
    ensures var r := Document(AsWritten, [front, back], [[], groups], screen, findViewfinder, aspect);
      |r| == 1 && r[0].commaBefore
  {
    assert CamerasUpTo(AsWritten, [front, back], [[], groups], 1, screen, findViewfinder, aspect) == [];
  }

  // ---------------------------------------------------------------------
  // The emitter
  // ---------------------------------------------------------------------

  /**
   * The token loop of one group, with its duplicate check; a record is
   * followed by a comma unless its token is the group's last one.
   */
  method JsonRecords(tokens: seq<string>, camGroups: seq<Group>, screen: Screen,
                     findViewfinder: ViewfinderFinder, aspect: string -> string) returns (records: seq<Record>)
    ensures records == EmitRecords(AsWritten, tokens, camGroups, screen, findViewfinder, aspect)
  {
    var repeatCheck: seq<string> := [];
    records := [];
    ghost var ps: seq<nat> := [];
    var m := 0;
    while m < |tokens|
      invariant m <= |tokens|
      invariant ps == Firsts(tokens, m)
      invariant repeatCheck == Seen(tokens, ps)
      invariant records == RecordsAt(AsWritten, tokens, ps, camGroups, screen, findViewfinder, aspect)
    {
      var thisRes := Base(tokens[m]);
      if thisRes !in repeatCheck {
        records := records + [Record(thisRes, findViewfinder(thisRes, camGroups, screen), aspect(thisRes), m != |tokens| - 1)];
        RecordsAtGrow(tokens, ps, m, camGroups, screen, findViewfinder, aspect);
        FirstsNew(tokens, m);
        repeatCheck := repeatCheck + [thisRes];
        ps := ps + [m];
      } else {
        FirstsRepeat(tokens, m);
      }
      m := m + 1;
    }
  }

  /** A token whose base resolution is new is written, and its base joins those seen. */
  lemma FirstsNew(tokens: seq<string>, m: nat)
    requires m < |tokens| && Base(tokens[m]) !in Seen(tokens, Firsts(tokens, m))
    ensures Firsts(tokens, m + 1) == Firsts(tokens, m) + [m]
    ensures Seen(tokens, Firsts(tokens, m) + [m]) == Seen(tokens, Firsts(tokens, m)) + [Base(tokens[m])]
  {
  }

  /** A token whose base resolution was seen is skipped. */
  lemma FirstsRepeat(tokens: seq<string>, m: nat)
    requires m < |tokens| && Base(tokens[m]) in Seen(tokens, Firsts(tokens, m))
    ensures Firsts(tokens, m + 1) == Firsts(tokens, m)
  {
  }

  lemma RecordsAtGrow(tokens: seq<string>, ps: seq<nat>, m: nat, camGroups: seq<Group>, screen: Screen,
                      findViewfinder: ViewfinderFinder, aspect: string -> string)
    requires m < |tokens| && forall k :: 0 <= k < |ps| ==> ps[k] < m
    ensures var b := Base(tokens[m]);
      RecordsAt(AsWritten, tokens, ps + [m], camGroups, screen, findViewfinder, aspect)
        == RecordsAt(AsWritten, tokens, ps, camGroups, screen, findViewfinder, aspect)
           + [Record(b, findViewfinder(b, camGroups, screen), aspect(b), m != |tokens| - 1)]
  {
  }

  /**
   * The group loop of one camera, skipping viewfinder groups; an array is
   * preceded by a comma unless its group is the camera's first one.
   */
  method JsonGroups(groups: seq<Group>, screen: Screen, findViewfinder: ViewfinderFinder, aspect: string -> string)
    returns (out: seq<GroupEntry>)
    ensures out == EmitGroups(AsWritten, groups, screen, findViewfinder, aspect)
  {
    out := [];
    var j := 0;
    while j < |groups|
      invariant j <= |groups|
      invariant out == GroupsUpTo(AsWritten, groups, j, screen, findViewfinder, aspect)
    {
      if !StartsWith(groups[j].kind, "viewfinder") {
        var records := JsonRecords(groups[j].tokens, groups, screen, findViewfinder, aspect);
        out := out + [GroupEntry(j > 0, GroupKey(groups[j].kind), records)];
      }
      j := j + 1;
    }
  }

  lemma CamerasAtGrow(mode: Commas, cameras: seq<Camera>, resolutions: seq<seq<Group>>, ps: seq<nat>, i: nat, screen: Screen,
                      findViewfinder: ViewfinderFinder, aspect: string -> string)
    requires i < |cameras| <= |resolutions| && forall k :: 0 <= k < |ps| ==> ps[k] < i
    ensures CamerasAt(mode, cameras, resolutions, ps + [i], screen, findViewfinder, aspect)
         == CamerasAt(mode, cameras, resolutions, ps, screen, findViewfinder, aspect)
            + [CameraEntry(if mode == AsWritten then i > 0 else |ps| > 0, CameraKey(cameras[i].name),
                           EmitGroups(mode, resolutions[i], screen, findViewfinder, aspect))]
  {
  }

  lemma GroupsAtGrow(mode: Commas, groups: seq<Group>, ps: seq<nat>, j: nat, screen: Screen,
                     findViewfinder: ViewfinderFinder, aspect: string -> string)
    requires j < |groups| && forall k :: 0 <= k < |ps| ==> ps[k] < j
    ensures GroupsAt(mode, groups, ps + [j], screen, findViewfinder, aspect)
         == GroupsAt(mode, groups, ps, screen, findViewfinder, aspect)
            + [GroupEntry(if mode == AsWritten then j > 0 else |ps| > 0, GroupKey(groups[j].kind),
                          EmitRecords(mode, groups[j].tokens, groups, screen, findViewfinder, aspect))]
  {
  }

  /** An accepted item joins the positions. */
  lemma PositionsKeep<T>(xs: seq<T>, keep: T -> bool, n: nat)
    requires n < |xs| && keep(xs[n])
    ensures Positions(xs, keep, n + 1) == Positions(xs, keep, n) + [n]
  {
  }

  /** A rejected item leaves the positions as they were. */
  lemma PositionsSkip<T>(xs: seq<T>, keep: T -> bool, n: nat)
    requires n < |xs| && !keep(xs[n])
    ensures Positions(xs, keep, n + 1) == Positions(xs, keep, n)
  {
  }

  /**
   * OutputGen::makeJson: the camera loop, skipping cameras without groups;
   * an object is preceded by a comma unless its camera is the first one.
   */
  method MakeJson(cameras: seq<Camera>, resolutions: seq<seq<Group>>, screen: Screen,
                  findViewfinder: ViewfinderFinder, aspect: string -> string) returns (doc: seq<CameraEntry>)
    requires |cameras| <= |resolutions|
    ensures doc == Document(AsWritten, cameras, resolutions, screen, findViewfinder, aspect)
  {
    doc := [];
    var i := 0;
    while i < |cameras|
      invariant i <= |cameras|
      invariant doc == CamerasUpTo(AsWritten, cameras, resolutions, i, screen, findViewfinder, aspect)
    {
      if resolutions[i] != [] {
        var groups := JsonGroups(resolutions[i], screen, findViewfinder, aspect);
        doc := doc + [CameraEntry(i > 0, CameraKey(cameras[i].name), groups)];
      }
      i := i + 1;
    }
  }
}
