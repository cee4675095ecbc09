/**
 * The camera hardware settings generator: a scan over cameras, their
 * capture groups and each group's resolution tokens that keeps, per
 * placeholder key, the best resolution seen (and, for video, its frame
 * rate), followed by the substitution of every key into every line of the
 * settings template.
 *
 * The methods are the loops of the generator; the functions below them are
 * the same scan written as folds, and the lemmas state what the scan keeps.
 */
module Camhw {
  import opened Wrappers
  import opened Text
  import opened OrderedMap
  import opened Resolution

  // ---------------------------------------------------------------------
  // The input and what is asked of it
  // ---------------------------------------------------------------------

  predicate GroupSafe(g: Group, aspect: string -> string) {
    KindOf(g.kind) == Unknown ||
    forall m :: 0 <= m < |g.tokens| ==> TokenSafe(KindOf(g.kind), g.tokens[m], aspect)
  }

  /**
   * One group list per camera (the generator indexes the lists by camera),
   * and every token of a group of known type safe to read.
   */
  predicate InputSafe(cameras: seq<Camera>, resolutions: seq<seq<Group>>, aspect: string -> string) {
    |cameras| <= |resolutions| &&
    forall i, j :: 0 <= i < |cameras| && 0 <= j < |resolutions[i]| ==> GroupSafe(resolutions[i][j], aspect)
  }

  // ---------------------------------------------------------------------
  // The scan as folds
  // ---------------------------------------------------------------------

  /**
   * The state of the scan of one group: the key-to-value map shared by the
   * whole run, the sizes stored for this group, and the group's top frame rate.
   */
  datatype GroupScan = GroupScan(values: seq<(string, string)>, sizes: seq<(string, int)>, top: int)

  /**
   * The replacement rule: the key holds nothing, or the candidate's area is
   * at least the area stored for this group; and the frame rate does not
   * fall below the group's top frame rate.
   */
  predicate Stored(g: GroupScan, c: Candidate)
    ensures Stored(g, c) ==> c.rate >= g.top
    ensures c.key !in Keys(g.values) ==> (Stored(g, c) <==> c.rate >= g.top)
    ensures Get(g.values, c.key).Some? && Get(g.values, c.key) != Some("") ==>
      (Stored(g, c) <==> c.size >= Value(g.sizes, c.key, 0) && c.rate >= g.top)
  {
    (Value(g.values, c.key, "") == "" || c.size >= Value(g.sizes, c.key, 0)) && c.rate >= g.top
  }

  /** Offering a candidate: stored under the rule, with its frame rate for video, or ignored. */
  function Offer(g: GroupScan, camKey: string, kind: Kind, c: Candidate): (r: GroupScan)
    requires kind != Unknown && c.key != FpsKey(camKey)
    ensures Stored(g, c) ==>
      && Get(r.values, c.key) == Some(c.value)
      && Get(r.sizes, c.key) == Some(c.size)
      && r.top == (if kind == Video then c.rate else g.top)
    ensures Stored(g, c) && kind == Video ==> Get(r.values, FpsKey(camKey)) == Some(Number(c.rate))
    ensures !Stored(g, c) ==> r == g
    ensures forall k :: k != c.key && (kind != Video || k != FpsKey(camKey)) ==>
      Get(r.values, k) == Get(g.values, k)
    ensures forall k :: k != c.key ==> Get(r.sizes, k) == Get(g.sizes, k)
    ensures Keys(r.values) <= Keys(g.values) + {c.key} + (if kind == Video then {FpsKey(camKey)} else {})
    ensures Sorted(g.values) ==> Sorted(r.values)
  {
    if Stored(g, c) then
      var values := Insert(g.values, c.key, c.value);
      var sizes := Insert(g.sizes, c.key, c.size);
      if kind == Video then GroupScan(Insert(values, FpsKey(camKey), Number(c.rate)), sizes, c.rate)
      else GroupScan(values, sizes, g.top)
    else g
  }

  /**
   * One token: a refused token changes nothing; an admitted one changes at
   * most the value under its own key and, in a video group, the frame-rate
   * key, and never lowers the top frame rate.
   */
  function StepToken(g: GroupScan, camKey: string, kind: Kind, token: string, screen: Screen, aspect: string -> string): (r: GroupScan)
    requires kind != Unknown && TokenSafe(kind, token, aspect)
    ensures Admit(camKey, kind, token, screen, aspect).None? ==> r == g
    ensures forall k :: Get(r.values, k) != Get(g.values, k) ==>
      Admit(camKey, kind, token, screen, aspect).Some? &&
      (k == Admit(camKey, kind, token, screen, aspect).value.key || (kind == Video && k == FpsKey(camKey)))
    ensures r.top >= g.top
  {
    match Admit(camKey, kind, token, screen, aspect)
    case None => g
    case Some(c) =>
      Offer(g, camKey, kind, c)
  }

  predicate TokensSafe(kind: Kind, tokens: seq<string>, aspect: string -> string) {
    forall m :: 0 <= m < |tokens| ==> TokenSafe(kind, tokens[m], aspect)
  }

  /** The scan of tokens[m..] of one group, from state g. */
  function ScanTokens(g: GroupScan, camKey: string, kind: Kind, tokens: seq<string>, m: nat, screen: Screen, aspect: string -> string): GroupScan
    requires kind != Unknown && m <= |tokens| && TokensSafe(kind, tokens, aspect)
    decreases |tokens| - m
  {
    if m == |tokens| then g
    else ScanTokens(StepToken(g, camKey, kind, tokens[m], screen, aspect), camKey, kind, tokens, m + 1, screen, aspect)
  }

  /** One group: skipped when its type is unknown, else scanned with fresh sizes and top frame rate. */
  function ScanGroup(values: seq<(string, string)>, camKey: string, group: Group, screen: Screen, aspect: string -> string): seq<(string, string)>
    requires GroupSafe(group, aspect)
  {
    var kind := KindOf(group.kind);
    if kind == Unknown then values
    else ScanTokens(GroupScan(values, [], 0), camKey, kind, group.tokens, 0, screen, aspect).values
  }

  predicate GroupsSafe(groups: seq<Group>, aspect: string -> string) {
    forall j :: 0 <= j < |groups| ==> GroupSafe(groups[j], aspect)
  }

  /** The scan of groups[j..] of one camera. */
  function ScanGroups(values: seq<(string, string)>, camKey: string, groups: seq<Group>, j: nat, screen: Screen, aspect: string -> string): seq<(string, string)>
    requires j <= |groups| && GroupsSafe(groups, aspect)
    decreases |groups| - j
  {
    if j == |groups| then values
    else ScanGroups(ScanGroup(values, camKey, groups[j], screen, aspect), camKey, groups, j + 1, screen, aspect)
  }

  /** Groups of unknown type or without tokens leave the map as it was. */
  lemma {:induction false} ScanGroupsSkipped(values: seq<(string, string)>, camKey: string, groups: seq<Group>, j: nat, screen: Screen, aspect: string -> string)
    requires j <= |groups| && GroupsSafe(groups, aspect)
    requires forall l :: j <= l < |groups| ==> KindOf(groups[l].kind) == Unknown || groups[l].tokens == []
    ensures ScanGroups(values, camKey, groups, j, screen, aspect) == values
    decreases |groups| - j
  {
    if j < |groups| {
      ScanGroupsSkipped(values, camKey, groups, j + 1, screen, aspect);
    }
  }

  /** The scan of cameras[i..]; a camera without groups is skipped. */
  function ScanCameras(values: seq<(string, string)>, cameras: seq<Camera>, resolutions: seq<seq<Group>>, i: nat, screen: Screen, aspect: string -> string): seq<(string, string)>
    requires i <= |cameras| && InputSafe(cameras, resolutions, aspect)
    decreases |cameras| - i
  {
    if i == |cameras| then values
    else
      var groups := resolutions[i];
      assert GroupsSafe(groups, aspect);
      var next := if groups == [] then values else ScanGroups(values, CamKey(cameras[i].name), groups, 0, screen, aspect);
      ScanCameras(next, cameras, resolutions, i + 1, screen, aspect)
  }

  /** Cameras without groups leave the map as it was. */
  lemma {:induction false} ScanCamerasSkipped(values: seq<(string, string)>, cameras: seq<Camera>, resolutions: seq<seq<Group>>, i: nat, screen: Screen, aspect: string -> string)
    requires i <= |cameras| && InputSafe(cameras, resolutions, aspect)
    requires forall l :: i <= l < |cameras| ==> resolutions[l] == []
    ensures ScanCameras(values, cameras, resolutions, i, screen, aspect) == values
    decreases |cameras| - i
  {
    if i < |cameras| {
      ScanCamerasSkipped(values, cameras, resolutions, i + 1, screen, aspect);
    }
  }

  /** The key-to-value map the whole scan produces. */
  function Selection(cameras: seq<Camera>, resolutions: seq<seq<Group>>, screen: Screen, aspect: string -> string): seq<(string, string)>
    requires InputSafe(cameras, resolutions, aspect)
  {
    ScanCameras([], cameras, resolutions, 0, screen, aspect)
  }

  // ---------------------------------------------------------------------
  // The scan as loops
  // ---------------------------------------------------------------------

  /** The token loop of one group of known type, with its own sizes and top frame rate. */
  method ScanGroupTokens(values0: seq<(string, string)>, camKey: string, kind: Kind, tokens: seq<string>, screen: Screen, aspect: string -> string)
      returns (values: seq<(string, string)>)
    requires kind != Unknown && TokensSafe(kind, tokens, aspect)
    ensures values == ScanTokens(GroupScan(values0, [], 0), camKey, kind, tokens, 0, screen, aspect).values
  {
    values := values0;
    var sizes: seq<(string, int)> := [];
    var topFramerate := 0;
    var m := 0;
    while m < |tokens|
      invariant 0 <= m <= |tokens|
      invariant ScanTokens(GroupScan(values, sizes, topFramerate), camKey, kind, tokens, m, screen, aspect)
             == ScanTokens(GroupScan(values0, [], 0), camKey, kind, tokens, 0, screen, aspect)
    {
      ScanTokensUnfold(GroupScan(values, sizes, topFramerate), camKey, kind, tokens, m, screen, aspect);
      values, sizes, topFramerate := ScanToken(values, sizes, topFramerate, camKey, kind, tokens[m], screen, aspect);
      m := m + 1;
    }
  }

  /** One pass of the token loop: the token's filters, then the replacement rule for the candidate it becomes. */
  method ScanToken(values0: seq<(string, string)>, sizes0: seq<(string, int)>, top0: int, camKey: string, kind: Kind,
                   token: string, screen: Screen, aspect: string -> string)
      returns (values: seq<(string, string)>, sizes: seq<(string, int)>, topFramerate: int)
    requires kind != Unknown && TokenSafe(kind, token, aspect)
    ensures GroupScan(values, sizes, topFramerate) == StepToken(GroupScan(values0, sizes0, top0), camKey, kind, token, screen, aspect)
  {
    var candidate := Admit(camKey, kind, token, screen, aspect);
    if candidate.Some? {
      values, sizes, topFramerate := OfferCandidate(values0, sizes0, top0, camKey, kind, candidate.value);
    } else {
      values, sizes, topFramerate := values0, sizes0, top0;
    }
  }

  /** The body of the token loop for an admitted candidate: the replacement rule applied to the three variables. */
  method OfferCandidate(values0: seq<(string, string)>, sizes0: seq<(string, int)>, top0: int, camKey: string, kind: Kind, c: Candidate)
      returns (values: seq<(string, string)>, sizes: seq<(string, int)>, topFramerate: int)
    requires kind != Unknown && c.key != FpsKey(camKey)
    ensures GroupScan(values, sizes, topFramerate) == Offer(GroupScan(values0, sizes0, top0), camKey, kind, c)
  {
    values, sizes, topFramerate := values0, sizes0, top0;
    if (Value(values, c.key, "") == "" || c.size >= Value(sizes, c.key, 0)) && c.rate >= topFramerate {
      values := Insert(values, c.key, c.value);
      sizes := Insert(sizes, c.key, c.size);
      if kind == Video {
        values := Insert(values, FpsKey(camKey), Number(c.rate));
        topFramerate := c.rate;
      }
    }
  }

  /** The group loop of one camera. */
  method ScanCameraGroups(values0: seq<(string, string)>, camKey: string, groups: seq<Group>, screen: Screen, aspect: string -> string)
      returns (values: seq<(string, string)>)
    requires GroupsSafe(groups, aspect)
    ensures values == ScanGroups(values0, camKey, groups, 0, screen, aspect)
  {
    values := values0;
    var j := 0;
    while j < |groups|
      invariant 0 <= j <= |groups|
      invariant ScanGroups(values, camKey, groups, j, screen, aspect) == ScanGroups(values0, camKey, groups, 0, screen, aspect)
    {
      var kind := KindOf(groups[j].kind);
      if kind != Unknown {
        values := ScanGroupTokens(values, camKey, kind, groups[j].tokens, screen, aspect);
      }
      j := j + 1;
    }
  }

  /** The camera loop: the key-to-value map of the whole run. */
  method SelectResolutions(cameras: seq<Camera>, resolutions: seq<seq<Group>>, screen: Screen, aspect: string -> string)
      returns (values: seq<(string, string)>)
    requires InputSafe(cameras, resolutions, aspect)
    ensures values == Selection(cameras, resolutions, screen, aspect)
  {
    values := [];
    var i := 0;
    while i < |cameras|
      invariant 0 <= i <= |cameras|
      invariant ScanCameras(values, cameras, resolutions, i, screen, aspect) == Selection(cameras, resolutions, screen, aspect)
    {
      var groups := resolutions[i];
      assert GroupsSafe(groups, aspect);
      if groups != [] {
        values := ScanCameraGroups(values, CamKey(cameras[i].name), groups, screen, aspect);
      }
      i := i + 1;
    }
  }

  // ---------------------------------------------------------------------
  // Template substitution
  // ---------------------------------------------------------------------

  /** QStringList::replaceInStrings: the replacement done in every line. */
  function ReplaceInStrings(lines: seq<string>, k: string, v: string): (r: seq<string>)
    requires |k| > 0
    ensures |r| == |lines|
  {
    seq(|lines|, l requires 0 <= l < |lines| => ReplaceAll(lines[l], k, v))
  }

  predicate KeysNonEmpty(entries: seq<(string, string)>) {
    forall e :: 0 <= e < |entries| ==> |entries[e].0| > 0
  }

  /**
   * The substitution loop over entries[n..], in list (ascending key) order:
   * an entry with an empty value is only reported, any other replaces its
   * key in every line.
   */
  function SubstituteFrom(lines: seq<string>, entries: seq<(string, string)>, n: nat): (r: seq<string>)
    requires n <= |entries| && KeysNonEmpty(entries)
    ensures |r| == |lines|
    decreases |entries| - n
  {
    if n == |entries| then lines
    else
      var next := if entries[n].1 == "" then lines else ReplaceInStrings(lines, entries[n].0, entries[n].1);
      SubstituteFrom(next, entries, n + 1)
  }

  /** Every entry of entries[n..] replaced, in order, in one line. */
  function ReplaceEach(line: string, entries: seq<(string, string)>, n: nat): (r: string)
    requires n <= |entries| && KeysNonEmpty(entries)
    ensures (forall e :: n <= e < |entries| ==> entries[e].1 == entries[e].0) ==> r == line
    decreases |entries| - n
  {
    if n == |entries| then line
    else ReplaceEach(ReplaceAll(line, entries[n].0, entries[n].1), entries, n + 1)
  }

  method Substitute(template: seq<string>, entries: seq<(string, string)>) returns (lines: seq<string>)
    requires KeysNonEmpty(entries)
    ensures lines == SubstituteFrom(template, entries, 0)
  {
    lines := template;
    var n := 0;
    while n < |entries|
      invariant 0 <= n <= |entries|
      invariant SubstituteFrom(lines, entries, n) == SubstituteFrom(template, entries, 0)
    {
      var (k, v) := entries[n];
      // An empty value would only be reported ("Not found suitable resolution").
      if v != "" {
        lines := ReplaceInStrings(lines, k, v);
      }
      n := n + 1;
    }
  }

  /**
   * With no empty value the substitution skips nothing: it keeps the number
   * and order of lines and replaces every key in every line.
   */
  lemma {:induction false} SubstituteLineWise(lines: seq<string>, entries: seq<(string, string)>, n: nat)
    requires n <= |entries| && KeysNonEmpty(entries)
    requires forall e :: n <= e < |entries| ==> entries[e].1 != ""
    ensures |SubstituteFrom(lines, entries, n)| == |lines|
    ensures forall l :: 0 <= l < |lines| ==> SubstituteFrom(lines, entries, n)[l] == ReplaceEach(lines[l], entries, n)
    decreases |entries| - n
  {
    if n < |entries| {
      var next := ReplaceInStrings(lines, entries[n].0, entries[n].1);
      SubstituteLineWise(next, entries, n + 1);
    }
  }

  /** A line in which no key occurs comes out unchanged. */
  lemma {:induction false} ReplaceEachUntouched(line: string, entries: seq<(string, string)>, n: nat)
    requires n <= |entries| && KeysNonEmpty(entries)
    requires forall e :: n <= e < |entries| ==> !Contains(line, entries[e].0)
    ensures ReplaceEach(line, entries, n) == line
    decreases |entries| - n
  {
    if n < |entries| {
      ReplaceAllAbsent(line, entries[n].0, entries[n].1);
      ReplaceEachUntouched(line, entries, n + 1);
    }
  }

  /**
   * The whole generator: the selection, then every key replaced by its value
   * in every template line, in ascending key order; the output has the
   * template's lines, and a line without any key is copied as it is.
   */
  method MakeCamhw(cameras: seq<Camera>, resolutions: seq<seq<Group>>, screen: Screen, aspect: string -> string, template: seq<string>)
      returns (output: seq<string>)
    requires InputSafe(cameras, resolutions, aspect)
    ensures |output| == |template|
    ensures KeysNonEmpty(Selection(cameras, resolutions, screen, aspect))
    ensures forall l :: 0 <= l < |template| ==>
      output[l] == ReplaceEach(template[l], Selection(cameras, resolutions, screen, aspect), 0)
    ensures forall l :: 0 <= l < |template| && (forall k :: k in Keys(Selection(cameras, resolutions, screen, aspect)) ==> !Contains(template[l], k)) ==>
      output[l] == template[l]
  {
    var values := SelectResolutions(cameras, resolutions, screen, aspect);
    SelectionWellFormed(cameras, resolutions, screen, aspect);
    output := Substitute(template, values);
    SubstituteLineWise(template, values, 0);
    forall l | 0 <= l < |template| && (forall k :: k in Keys(values) ==> !Contains(template[l], k))
      ensures output[l] == template[l]
    {
      forall e | 0 <= e < |values| ensures !Contains(template[l], values[e].0) {
        assert values[e].0 in Keys(values);
      }
      ReplaceEachUntouched(template[l], values, 0);
    }
  }

  // ---------------------------------------------------------------------
  // What the selection holds: sorted keys, non-empty values, admitted keys
  // ---------------------------------------------------------------------

  /** The keys a token is a candidate for: its resolution key, and for video the frame-rate key. */
  function TokenKeys(camKey: string, kind: Kind, token: string, screen: Screen, aspect: string -> string): set<string>
    requires kind != Unknown && TokenSafe(kind, token, aspect)
  {
    match Admit(camKey, kind, token, screen, aspect)
    case None => {}
    case Some(c) => {c.key} + (if kind == Video then {FpsKey(camKey)} else {})
  }

  /** Every key some token of the input passes the filters for. */
  function AdmittedKeys(cameras: seq<Camera>, resolutions: seq<seq<Group>>, screen: Screen, aspect: string -> string): set<string>
    requires InputSafe(cameras, resolutions, aspect)
  {
    set i, j, m, k |
      && 0 <= i < |cameras| && 0 <= j < |resolutions[i]| && KindOf(resolutions[i][j].kind) != Unknown
      && 0 <= m < |resolutions[i][j].tokens|
      && k in TokenKeys(CamKey(cameras[i].name), KindOf(resolutions[i][j].kind), resolutions[i][j].tokens[m], screen, aspect)
      :: k
  }

  predicate NonEmptyValues(values: seq<(string, string)>) {
    forall k :: k in Keys(values) ==> Value(values, k, "") != ""
  }

  predicate WellFormed(values: seq<(string, string)>, allowed: set<string>) {
    Sorted(values) && NonEmptyValues(values) && Keys(values) <= allowed
  }

  lemma StepWellFormed(g: GroupScan, camKey: string, kind: Kind, token: string, screen: Screen, aspect: string -> string, allowed: set<string>)
    requires kind != Unknown && TokenSafe(kind, token, aspect)
    requires WellFormed(g.values, allowed) && TokenKeys(camKey, kind, token, screen, aspect) <= allowed
    ensures WellFormed(StepToken(g, camKey, kind, token, screen, aspect).values, allowed)
  {
    match Admit(camKey, kind, token, screen, aspect)
    case None =>
    case Some(c) =>
      var r := Offer(g, camKey, kind, c);
      forall k | k in Keys(r.values) ensures Value(r.values, k, "") != "" {
        if Stored(g, c) && k == c.key {
        } else if Stored(g, c) && kind == Video && k == FpsKey(camKey) {
        } else {
          assert Get(r.values, k) == Get(g.values, k);
        }
      }
  }

  lemma {:induction false} ScanTokensWellFormed(g: GroupScan, camKey: string, kind: Kind, tokens: seq<string>, m: nat, screen: Screen, aspect: string -> string, allowed: set<string>)
    requires kind != Unknown && m <= |tokens| && TokensSafe(kind, tokens, aspect)
    requires WellFormed(g.values, allowed)
    requires forall m' :: m <= m' < |tokens| ==> TokenKeys(camKey, kind, tokens[m'], screen, aspect) <= allowed
    ensures WellFormed(ScanTokens(g, camKey, kind, tokens, m, screen, aspect).values, allowed)
    decreases |tokens| - m
  {
    if m < |tokens| {
      StepWellFormed(g, camKey, kind, tokens[m], screen, aspect, allowed);
      ScanTokensWellFormed(StepToken(g, camKey, kind, tokens[m], screen, aspect), camKey, kind, tokens, m + 1, screen, aspect, allowed);
    }
  }

  lemma {:induction false} ScanGroupsWellFormed(values: seq<(string, string)>, camKey: string, groups: seq<Group>, j: nat, screen: Screen, aspect: string -> string, allowed: set<string>)
    requires j <= |groups| && GroupsSafe(groups, aspect)
    requires WellFormed(values, allowed)
    requires forall j', m' :: j <= j' < |groups| && KindOf(groups[j'].kind) != Unknown && 0 <= m' < |groups[j'].tokens| ==>
      TokenKeys(camKey, KindOf(groups[j'].kind), groups[j'].tokens[m'], screen, aspect) <= allowed
    ensures WellFormed(ScanGroups(values, camKey, groups, j, screen, aspect), allowed)
    decreases |groups| - j
  {
    if j < |groups| {
      var g := groups[j];
      var kind := KindOf(g.kind);
      if kind != Unknown {
        ScanTokensWellFormed(GroupScan(values, [], 0), camKey, kind, g.tokens, 0, screen, aspect, allowed);
      }
      ScanGroupsWellFormed(ScanGroup(values, camKey, g, screen, aspect), camKey, groups, j + 1, screen, aspect, allowed);
    }
  }

  lemma {:induction false} ScanCamerasWellFormed(values: seq<(string, string)>, cameras: seq<Camera>, resolutions: seq<seq<Group>>, i: nat, screen: Screen, aspect: string -> string)
    requires i <= |cameras| && InputSafe(cameras, resolutions, aspect)
    requires WellFormed(values, AdmittedKeys(cameras, resolutions, screen, aspect))
    ensures WellFormed(ScanCameras(values, cameras, resolutions, i, screen, aspect), AdmittedKeys(cameras, resolutions, screen, aspect))
    decreases |cameras| - i
  {
    if i < |cameras| {
      var allowed := AdmittedKeys(cameras, resolutions, screen, aspect);
      var groups := resolutions[i];
      assert GroupsSafe(groups, aspect);
      var camKey := CamKey(cameras[i].name);
      if groups != [] {
        forall j', m' | 0 <= j' < |groups| && KindOf(groups[j'].kind) != Unknown && 0 <= m' < |groups[j'].tokens|
          ensures TokenKeys(camKey, KindOf(groups[j'].kind), groups[j'].tokens[m'], screen, aspect) <= allowed
        {
          TokenKeysAdmitted(cameras, resolutions, i, j', m', screen, aspect);
        }
        ScanGroupsWellFormed(values, camKey, groups, 0, screen, aspect, allowed);
      }
      ScanCamerasWellFormed(if groups == [] then values else ScanGroups(values, camKey, groups, 0, screen, aspect),
        cameras, resolutions, i + 1, screen, aspect);
    }
  }

  lemma TokenKeysAdmitted(cameras: seq<Camera>, resolutions: seq<seq<Group>>, i: nat, j: nat, m: nat, screen: Screen, aspect: string -> string)
    requires InputSafe(cameras, resolutions, aspect)
    requires i < |cameras| && j < |resolutions[i]| && KindOf(resolutions[i][j].kind) != Unknown && m < |resolutions[i][j].tokens|
    ensures TokenKeys(CamKey(cameras[i].name), KindOf(resolutions[i][j].kind), resolutions[i][j].tokens[m], screen, aspect)
      <= AdmittedKeys(cameras, resolutions, screen, aspect)
  {
    forall k | k in TokenKeys(CamKey(cameras[i].name), KindOf(resolutions[i][j].kind), resolutions[i][j].tokens[m], screen, aspect)
      ensures k in AdmittedKeys(cameras, resolutions, screen, aspect)
    {
    }
  }

  /**
   * The selection is in ascending key order (the order QMap iterates in),
   * holds no empty value, so the "Not found suitable resolution" report can
   * never be reached, and holds only keys some token was admitted for, so
   * a bucket without a qualifying token gets no entry.
   */
  lemma SelectionWellFormed(cameras: seq<Camera>, resolutions: seq<seq<Group>>, screen: Screen, aspect: string -> string)
    requires InputSafe(cameras, resolutions, aspect)
    ensures Sorted(Selection(cameras, resolutions, screen, aspect))
    ensures forall e :: 0 <= e < |Selection(cameras, resolutions, screen, aspect)| ==>
      Selection(cameras, resolutions, screen, aspect)[e].1 != ""
    ensures KeysNonEmpty(Selection(cameras, resolutions, screen, aspect))
    ensures Keys(Selection(cameras, resolutions, screen, aspect)) <= AdmittedKeys(cameras, resolutions, screen, aspect)
  {
    var sel := Selection(cameras, resolutions, screen, aspect);
    assert Keys<string>([]) == {};
    ScanCamerasWellFormed([], cameras, resolutions, 0, screen, aspect);
    forall e | 0 <= e < |sel| ensures sel[e].1 != "" && |sel[e].0| > 0 {
      SortedGet(sel, e);
      assert sel[e].0 in Keys(sel);
    }
  }

  // ---------------------------------------------------------------------
  // Key shapes
  // ---------------------------------------------------------------------

  /** The six placeholder keys of one camera; only the video bucket has a frame-rate key. */
  function KeyShapes(camKey: string): set<string> {
    { "@" + camKey + "VF43RES@", "@" + camKey + "VF169RES@",
      "@" + camKey + "IMAGE43RES@", "@" + camKey + "IMAGE169RES@",
      "@" + camKey + "VIDEORES@", "@" + camKey + "VIDEOFPS@" }
  }

  lemma TokenKeysShape(camKey: string, kind: Kind, token: string, screen: Screen, aspect: string -> string)
    requires kind != Unknown && TokenSafe(kind, token, aspect)
    ensures TokenKeys(camKey, kind, token, screen, aspect) <= KeyShapes(camKey)
  {
    match Admit(camKey, kind, token, screen, aspect)
    case None =>
    case Some(c) =>
      ResKeyShape(camKey, kind, if kind == Video then "" else if aspect(token) == "4:3" then "43" else "169");
      assert FpsKey(camKey) == "@" + camKey + "VIDEO" + "FPS@";
      assert "@" + camKey + "VIDEO" + "FPS@" == "@" + camKey + "VIDEOFPS@";
  }

  /** A resolution key built from a tag and an aspect suffix is one of the six shapes. */
  lemma ResKeyShape(camKey: string, kind: Kind, sfx: string)
    requires kind != Unknown
    requires if kind == Video then sfx == "" else sfx == "43" || sfx == "169"
    ensures "@" + camKey + Tag(kind) + sfx + "RES@" in KeyShapes(camKey)
  {
    var p := "@" + camKey;
    assert p + Tag(kind) + sfx + "RES@" == p + (Tag(kind) + sfx + "RES@");
    if kind == Video {
      assert Tag(kind) + sfx + "RES@" == "VIDEORES@";
    } else if sfx == "43" {
      assert Tag(kind) + sfx + "RES@" == (if kind == Image then "IMAGE43RES@" else "VF43RES@");
    } else {
      assert Tag(kind) + sfx + "RES@" == (if kind == Image then "IMAGE169RES@" else "VF169RES@");
    }
  }

  /**
   * Every key of the selection is "@" + the upper-cased first three
   * characters of a camera's name + VF, IMAGE or VIDEO + the aspect suffix
   * + "RES@", or that camera's "VIDEOFPS@" key, for a camera that has groups.
   */
  lemma SelectionKeyShapes(cameras: seq<Camera>, resolutions: seq<seq<Group>>, screen: Screen, aspect: string -> string)
    requires InputSafe(cameras, resolutions, aspect)
    ensures forall k :: k in Keys(Selection(cameras, resolutions, screen, aspect)) ==>
      exists i :: 0 <= i < |cameras| && resolutions[i] != [] && k in KeyShapes(CamKey(cameras[i].name))
  {
    SelectionWellFormed(cameras, resolutions, screen, aspect);
    forall k | k in Keys(Selection(cameras, resolutions, screen, aspect))
      ensures exists i :: 0 <= i < |cameras| && resolutions[i] != [] && k in KeyShapes(CamKey(cameras[i].name))
    {
      assert k in AdmittedKeys(cameras, resolutions, screen, aspect);
      var i, j, m :| 0 <= i < |cameras| && 0 <= j < |resolutions[i]| && KindOf(resolutions[i][j].kind) != Unknown
        && 0 <= m < |resolutions[i][j].tokens|
        && k in TokenKeys(CamKey(cameras[i].name), KindOf(resolutions[i][j].kind), resolutions[i][j].tokens[m], screen, aspect);
      TokenKeysShape(CamKey(cameras[i].name), KindOf(resolutions[i][j].kind), resolutions[i][j].tokens[m], screen, aspect);
    }
  }

  // ---------------------------------------------------------------------
  // Within one group: monotone sizes and frame rate
  // ---------------------------------------------------------------------

  /** Every key stored in this group's sizes holds a non-empty value. */
  predicate GroupInv(g: GroupScan) {
    forall k :: k in Keys(g.sizes) ==> Value(g.values, k, "") != ""
  }

  /** Sizes only grow and keys are never dropped; the top frame rate only grows. */
  predicate Grown(g: GroupScan, r: GroupScan) {
    && r.top >= g.top
    && forall k :: k in Keys(g.sizes) ==> k in Keys(r.sizes) && Value(r.sizes, k, 0) >= Value(g.sizes, k, 0)
  }

  lemma StepMonotone(g: GroupScan, camKey: string, kind: Kind, token: string, screen: Screen, aspect: string -> string)
    requires kind != Unknown && TokenSafe(kind, token, aspect) && GroupInv(g)
    ensures GroupInv(StepToken(g, camKey, kind, token, screen, aspect))
    ensures Grown(g, StepToken(g, camKey, kind, token, screen, aspect))
  {
    match Admit(camKey, kind, token, screen, aspect)
    case None =>
    case Some(c) =>
      var r := Offer(g, camKey, kind, c);
      if Stored(g, c) {
        forall k | k in Keys(r.sizes) ensures Value(r.values, k, "") != "" {
          if k != c.key {
            assert Get(r.sizes, k) == Get(g.sizes, k);
            if kind == Video && k == FpsKey(camKey) {
            } else {
              assert Get(r.values, k) == Get(g.values, k);
            }
          }
        }
        forall k | k in Keys(g.sizes) ensures k in Keys(r.sizes) && Value(r.sizes, k, 0) >= Value(g.sizes, k, 0) {
          if k != c.key {
            assert Get(r.sizes, k) == Get(g.sizes, k);
          }
        }
      }
  }

  /**
   * Within one group the area stored for each key and the top frame rate
   * never decrease, and no key leaves the group's sizes.
   */
  lemma {:induction false} ScanMonotone(g: GroupScan, camKey: string, kind: Kind, tokens: seq<string>, m: nat, screen: Screen, aspect: string -> string)
    requires kind != Unknown && m <= |tokens| && TokensSafe(kind, tokens, aspect) && GroupInv(g)
    ensures GroupInv(ScanTokens(g, camKey, kind, tokens, m, screen, aspect))
    ensures Grown(g, ScanTokens(g, camKey, kind, tokens, m, screen, aspect))
    decreases |tokens| - m
  {
    if m < |tokens| {
      var g' := StepToken(g, camKey, kind, tokens[m], screen, aspect);
      StepMonotone(g, camKey, kind, tokens[m], screen, aspect);
      ScanMonotone(g', camKey, kind, tokens, m + 1, screen, aspect);
    }
  }

  // ---------------------------------------------------------------------
  // Image and viewfinder groups: the last candidate of largest area wins
  // ---------------------------------------------------------------------

  /** The candidates for `key` among tokens[m..], in token order. */
  function Candidates(camKey: string, kind: Kind, tokens: seq<string>, m: nat, key: string, screen: Screen, aspect: string -> string): (r: seq<Candidate>)
    requires kind != Unknown && m <= |tokens| && TokensSafe(kind, tokens, aspect)
    ensures forall n :: 0 <= n < |r| ==> r[n].key == key
    decreases |tokens| - m
  {
    if m == |tokens| then []
    else
      var rest := Candidates(camKey, kind, tokens, m + 1, key, screen, aspect);
      match Admit(camKey, kind, tokens[m], screen, aspect)
      case Some(c) => if c.key == key then [c] + rest else rest
      case None => rest
  }

  /** A reference scan for the best candidate: a later one wins when its area is at least as large. */
  function Pick(cur: Option<Candidate>, c: Candidate): Option<Candidate> {
    if cur.None? || c.size >= cur.value.size then Some(c) else cur
  }

  function BestFrom(cur: Option<Candidate>, cs: seq<Candidate>): Option<Candidate>
    decreases |cs|
  {
    if cs == [] then cur else BestFrom(Pick(cur, cs[0]), cs[1..])
  }

  /** cs[w] has the largest area, and every later candidate is strictly smaller. */
  predicate LastLargest(cs: seq<Candidate>, w: nat) {
    && w < |cs|
    && (forall j :: 0 <= j < |cs| ==> cs[j].size <= cs[w].size)
    && (forall j :: w < j < |cs| ==> cs[j].size < cs[w].size)
  }

  /** The reference scan keeps what it held, or ends on the last candidate of largest area. */
  lemma {:induction false} BestFromLastLargest(cur: Option<Candidate>, cs: seq<Candidate>)
    decreases |cs|
    ensures
      || (BestFrom(cur, cs) == cur && (cs == [] || (cur.Some? && forall j :: 0 <= j < |cs| ==> cs[j].size < cur.value.size)))
      || (exists w: nat :: LastLargest(cs, w) && BestFrom(cur, cs) == Some(cs[w])
            && (cur.Some? ==> cs[w].size >= cur.value.size))
  {
    if cs != [] {
      var next := Pick(cur, cs[0]);
      var rest := cs[1..];
      BestFromLastLargest(next, rest);
      if BestFrom(next, rest) == next && (rest == [] || (next.Some? && forall j :: 0 <= j < |rest| ==> rest[j].size < next.value.size)) {
        if next == Some(cs[0]) {
          assert LastLargest(cs, 0) by {
            forall j | 0 < j < |cs| ensures cs[j].size < cs[0].size {
              assert cs[j] == rest[j - 1];
            }
          }
        } else {
          forall j | 0 <= j < |cs| ensures cs[j].size < cur.value.size {
            if j > 0 { assert cs[j] == rest[j - 1]; }
          }
        }
      } else {
        var w: nat :| LastLargest(rest, w) && BestFrom(next, rest) == Some(rest[w])
          && (next.Some? ==> rest[w].size >= next.value.size);
        assert cs[w + 1] == rest[w];
        assert LastLargest(cs, w + 1) by {
          forall j | 0 <= j < |cs| ensures cs[j].size <= cs[w + 1].size {
            if j > 0 { assert cs[j] == rest[j - 1]; }
          }
          forall j | w + 1 < j < |cs| ensures cs[j].size < cs[w + 1].size {
            assert cs[j] == rest[j - 1];
          }
        }
      }
    }
  }

  /** What the group has stored for `key` so far, as a candidate. */
  function Held(g: GroupScan, key: string): Option<Candidate> {
    if key in Keys(g.sizes) then Some(Candidate(key, Value(g.values, key, ""), Value(g.sizes, key, 0), 0)) else None
  }

  /** `after` holds the value of `best` for `key`, or what `before` held when there is none. */
  predicate Tracks(before: seq<(string, string)>, after: seq<(string, string)>, key: string, best: Option<Candidate>) {
    match best
    case Some(b) => Get(after, key) == Some(b.value)
    case None => Get(after, key) == Get(before, key)
  }

  lemma {:induction false} BestFromSome(cur: Option<Candidate>, cs: seq<Candidate>)
    requires cur.Some?
    ensures BestFrom(cur, cs).Some?
    decreases |cs|
  {
    if cs != [] {
      BestFromSome(Pick(cur, cs[0]), cs[1..]);
    }
  }

  /** From state g, the scan of tokens[m..] ends holding for `key` what the reference scan picks. */
  predicate FollowsBest(g: GroupScan, camKey: string, kind: Kind, tokens: seq<string>, m: nat, key: string, screen: Screen, aspect: string -> string)
    requires kind != Unknown && m <= |tokens| && TokensSafe(kind, tokens, aspect)
  {
    Tracks(g.values, ScanTokens(g, camKey, kind, tokens, m, screen, aspect).values, key,
           BestFrom(Held(g, key), Candidates(camKey, kind, tokens, m, key, screen, aspect)))
  }

  /** An image or viewfinder group part-way through its tokens. */
  predicate ImageScan(g: GroupScan, camKey: string, kind: Kind, tokens: seq<string>, m: nat, key: string, screen: Screen, aspect: string -> string) {
    && (kind == Image || kind == Viewfinder) && m <= |tokens| && TokensSafe(kind, tokens, aspect)
    && GroupInv(g) && g.top == 0
  }

  /** The engine's scan of an image or viewfinder group follows the reference scan, key by key. */
  lemma {:induction false} ScanFollowsBest(g: GroupScan, camKey: string, kind: Kind, tokens: seq<string>, m: nat, key: string, screen: Screen, aspect: string -> string)
    requires ImageScan(g, camKey, kind, tokens, m, key, screen, aspect)
    ensures FollowsBest(g, camKey, kind, tokens, m, key, screen, aspect)
    decreases |tokens| - m, 1
  {
    if m == |tokens| {
      ScanFollowsBestDone(g, camKey, kind, tokens, m, key, screen, aspect);
    } else {
      ScanFollowsBestFrom(g, camKey, kind, tokens, m, key, screen, aspect);
    }
  }

  /** The inductive step of ScanFollowsBest: token m, then the rest. */
  lemma {:induction false} ScanFollowsBestFrom(g: GroupScan, camKey: string, kind: Kind, tokens: seq<string>, m: nat, key: string, screen: Screen, aspect: string -> string)
    requires ImageScan(g, camKey, kind, tokens, m, key, screen, aspect) && m < |tokens|
    ensures FollowsBest(g, camKey, kind, tokens, m, key, screen, aspect)
    decreases |tokens| - m, 0
  {
    var g' := FollowStep(g, camKey, kind, tokens, m, key, screen, aspect);
    ScanFollowsBest(g', camKey, kind, tokens, m + 1, key, screen, aspect);
  }

  /** One token: the group stays an image group, and the claim for the rest of the tokens gives the claim from this one. */
  lemma FollowStep(g: GroupScan, camKey: string, kind: Kind, tokens: seq<string>, m: nat, key: string, screen: Screen, aspect: string -> string)
      returns (g': GroupScan)
    requires ImageScan(g, camKey, kind, tokens, m, key, screen, aspect) && m < |tokens|
    ensures g' == StepToken(g, camKey, kind, tokens[m], screen, aspect)
    ensures ImageScan(g', camKey, kind, tokens, m + 1, key, screen, aspect)
    ensures FollowsBest(g', camKey, kind, tokens, m + 1, key, screen, aspect) ==> FollowsBest(g, camKey, kind, tokens, m, key, screen, aspect)
  {
    g' := StepToken(g, camKey, kind, tokens[m], screen, aspect);
    var f := ScanTokens(g, camKey, kind, tokens, m, screen, aspect);
    ScanTokensUnfold(g, camKey, kind, tokens, m, screen, aspect);
    StepKeepsImageInv(g, camKey, kind, tokens[m], screen, aspect);
    if Tracks(g'.values, f.values, key, BestFrom(Held(g', key), Candidates(camKey, kind, tokens, m + 1, key, screen, aspect))) {
      StepTracks(g, camKey, kind, tokens, m, key, f.values, screen, aspect);
    }
  }

  lemma ScanFollowsBestDone(g: GroupScan, camKey: string, kind: Kind, tokens: seq<string>, m: nat, key: string, screen: Screen, aspect: string -> string)
    requires ImageScan(g, camKey, kind, tokens, m, key, screen, aspect) && m == |tokens|
    ensures FollowsBest(g, camKey, kind, tokens, m, key, screen, aspect)
  {
    HeldTracks(g, key);
  }

  /** What the group holds for `key` is what its values say. */
  lemma HeldTracks(g: GroupScan, key: string)
    requires GroupInv(g)
    ensures Tracks(g.values, g.values, key, Held(g, key))
  {
    if key in Keys(g.sizes) {
      assert Value(g.values, key, "") != "";
    }
  }

  /** One token of the scan is one step of the reference scan for `key`. */
  lemma StepTracks(g: GroupScan, camKey: string, kind: Kind, tokens: seq<string>, m: nat, key: string, after: seq<(string, string)>, screen: Screen, aspect: string -> string)
    requires (kind == Image || kind == Viewfinder) && m < |tokens| && TokensSafe(kind, tokens, aspect)
    requires GroupInv(g) && g.top == 0
    requires var g' := StepToken(g, camKey, kind, tokens[m], screen, aspect);
      Tracks(g'.values, after, key, BestFrom(Held(g', key), Candidates(camKey, kind, tokens, m + 1, key, screen, aspect)))
    ensures Tracks(g.values, after, key, BestFrom(Held(g, key), Candidates(camKey, kind, tokens, m, key, screen, aspect)))
  {
    var g' := StepToken(g, camKey, kind, tokens[m], screen, aspect);
    StepHeld(g, camKey, kind, tokens[m], key, screen, aspect);
    var cs := Candidates(camKey, kind, tokens, m, key, screen, aspect);
    var rest := Candidates(camKey, kind, tokens, m + 1, key, screen, aspect);
    match Admit(camKey, kind, tokens[m], screen, aspect)
    case None =>
      TracksKept(g.values, g'.values, after, key, Held(g, key), cs);
    case Some(c) =>
      if c.key == key {
        assert cs == [c] + rest;
        assert cs[0].size >= 0;
        TracksPicked(g.values, g'.values, after, key, Held(g, key), c, rest);
      } else {
        TracksKept(g.values, g'.values, after, key, Held(g, key), cs);
      }
  }

  /** A token that offers nothing for `key` leaves the tracked value in place. */
  lemma TracksKept(before: seq<(string, string)>, mid: seq<(string, string)>, after: seq<(string, string)>, key: string, held: Option<Candidate>, cs: seq<Candidate>)
    requires Get(mid, key) == Get(before, key)
    requires Tracks(mid, after, key, BestFrom(held, cs))
    ensures Tracks(before, after, key, BestFrom(held, cs))
  {
  }

  /** A token that offers candidate `c` for `key` is one step of the reference scan. */
  lemma TracksPicked(before: seq<(string, string)>, mid: seq<(string, string)>, after: seq<(string, string)>, key: string, held: Option<Candidate>, c: Candidate, rest: seq<Candidate>)
    requires Tracks(mid, after, key, BestFrom(Pick(held, c), rest))
    ensures Tracks(before, after, key, BestFrom(held, [c] + rest))
  {
    assert ([c] + rest)[1..] == rest;
    BestFromSome(Pick(held, c), rest);
  }

  /** Outside video groups the top frame rate never moves, and the group invariant is kept. */
  lemma StepKeepsImageInv(g: GroupScan, camKey: string, kind: Kind, token: string, screen: Screen, aspect: string -> string)
    requires (kind == Image || kind == Viewfinder) && TokenSafe(kind, token, aspect) && GroupInv(g)
    ensures StepToken(g, camKey, kind, token, screen, aspect).top == g.top
    ensures GroupInv(StepToken(g, camKey, kind, token, screen, aspect))
  {
    StepMonotone(g, camKey, kind, token, screen, aspect);
  }

  lemma ScanTokensUnfold(g: GroupScan, camKey: string, kind: Kind, tokens: seq<string>, m: nat, screen: Screen, aspect: string -> string)
    requires kind != Unknown && m < |tokens| && TokensSafe(kind, tokens, aspect)
    ensures ScanTokens(g, camKey, kind, tokens, m, screen, aspect)
      == ScanTokens(StepToken(g, camKey, kind, tokens[m], screen, aspect), camKey, kind, tokens, m + 1, screen, aspect)
  {
  }

  /** One token moves what is held for `key` exactly as one step of the reference scan. */
  lemma StepHeld(g: GroupScan, camKey: string, kind: Kind, token: string, key: string, screen: Screen, aspect: string -> string)
    requires (kind == Image || kind == Viewfinder) && TokenSafe(kind, token, aspect)
    requires GroupInv(g) && g.top == 0
    ensures var g' := StepToken(g, camKey, kind, token, screen, aspect);
      && g'.top == 0
      && match Admit(camKey, kind, token, screen, aspect)
         case Some(c) => if c.key == key then Held(g', key) == Pick(Held(g, key), c)
                         else Get(g'.values, key) == Get(g.values, key) && Held(g', key) == Held(g, key)
         case None => g' == g
  {
    match Admit(camKey, kind, token, screen, aspect)
    case None =>
    case Some(c) =>
      if key in Keys(g.sizes) {
        assert Value(g.values, key, "") != "";
      }
  }

  /**
   * In an image or viewfinder group (frame rate always 0) a key ends up with
   * the value of the last candidate of largest area, whatever it held before
   * the group (an earlier group or camera with the same key is overwritten),
   * and is left as it was when the group has no candidate for it.
   */
  lemma ImageGroupKeepsLastLargest(values: seq<(string, string)>, camKey: string, kind: Kind, tokens: seq<string>, key: string, screen: Screen, aspect: string -> string)
    requires (kind == Image || kind == Viewfinder) && TokensSafe(kind, tokens, aspect)
    ensures var f := ScanTokens(GroupScan(values, [], 0), camKey, kind, tokens, 0, screen, aspect).values;
      var cs := Candidates(camKey, kind, tokens, 0, key, screen, aspect);
      && (cs == [] ==> Get(f, key) == Get(values, key))
      && (cs != [] ==> exists w: nat :: LastLargest(cs, w) && Get(f, key) == Some(cs[w].value))
  {
    var g := GroupScan(values, [], 0);
    assert Keys<int>([]) == {};
    assert Held(g, key) == None;
    ScanFollowsBest(g, camKey, kind, tokens, 0, key, screen, aspect);
    BestFromLastLargest(None, Candidates(camKey, kind, tokens, 0, key, screen, aspect));
  }

  // ---------------------------------------------------------------------
  // Video groups: resolution and frame rate come from the same token
  // ---------------------------------------------------------------------

  /** The single resolution key of a camera's video bucket. */
  function VideoResKey(camKey: string): string {
    "@" + camKey + "VIDEORES@"
  }

  /**
   * `token` is admitted, and its resolution and frame rate are what the
   * group holds under the video keys, the frame rate being the group's top.
   */
  predicate HoldsToken(g: GroupScan, camKey: string, token: string, screen: Screen, aspect: string -> string) {
    && TokenSafe(Video, token, aspect)
    && match Admit(camKey, Video, token, screen, aspect)
       case None => false
       case Some(c) =>
         && Get(g.values, VideoResKey(camKey)) == Some(c.value)
         && Get(g.values, FpsKey(camKey)) == Some(Number(c.rate))
         && Get(g.sizes, VideoResKey(camKey)) == Some(c.size)
         && g.top == c.rate
  }

  /** Either nothing is stored yet, or what is stored came from one token of the group. */
  predicate VideoInv(g: GroupScan, values0: seq<(string, string)>, camKey: string, tokens: seq<string>, screen: Screen, aspect: string -> string) {
    || (VideoResKey(camKey) !in Keys(g.sizes) && g.top == 0 && g.values == values0)
    || (exists n :: 0 <= n < |tokens| && HoldsToken(g, camKey, tokens[n], screen, aspect))
  }

  lemma VideoKey(camKey: string, token: string, screen: Screen, aspect: string -> string)
    requires TokenSafe(Video, token, aspect)
    ensures match Admit(camKey, Video, token, screen, aspect)
      case None => true
      case Some(c) => c.key == VideoResKey(camKey) && IntMin <= c.rate <= IntMax
  {
    match Admit(camKey, Video, token, screen, aspect)
    case None =>
    case Some(c) =>
      assert Tag(Video) == "VIDEO";
      assert c.key == "@" + camKey + "VIDEO" + "" + "RES@";
      assert "@" + camKey + "VIDEO" + "" + "RES@" == VideoResKey(camKey);
  }

  lemma VideoStep(g: GroupScan, values0: seq<(string, string)>, camKey: string, tokens: seq<string>, m: nat, screen: Screen, aspect: string -> string)
    requires m < |tokens| && TokensSafe(Video, tokens, aspect)
    requires VideoInv(g, values0, camKey, tokens, screen, aspect)
    ensures VideoInv(StepToken(g, camKey, Video, tokens[m], screen, aspect), values0, camKey, tokens, screen, aspect)
    ensures match Admit(camKey, Video, tokens[m], screen, aspect)
      case None => true
      case Some(c) => VideoResKey(camKey) in Keys(StepToken(g, camKey, Video, tokens[m], screen, aspect).sizes)
  {
    var g' := StepToken(g, camKey, Video, tokens[m], screen, aspect);
    VideoKey(camKey, tokens[m], screen, aspect);
    match Admit(camKey, Video, tokens[m], screen, aspect)
    case None =>
    case Some(c) =>
      if Stored(g, c) {
        assert HoldsToken(g', camKey, tokens[m], screen, aspect);
      } else {
        assert VideoResKey(camKey) in Keys(g.sizes);
      }
  }

  lemma {:induction false} VideoScan(g: GroupScan, values0: seq<(string, string)>, camKey: string, tokens: seq<string>, m: nat, screen: Screen, aspect: string -> string)
    requires m <= |tokens| && TokensSafe(Video, tokens, aspect)
    requires VideoInv(g, values0, camKey, tokens, screen, aspect) && GroupInv(g)
    ensures VideoInv(ScanTokens(g, camKey, Video, tokens, m, screen, aspect), values0, camKey, tokens, screen, aspect)
    ensures VideoResKey(camKey) in Keys(g.sizes) ==>
      VideoResKey(camKey) in Keys(ScanTokens(g, camKey, Video, tokens, m, screen, aspect).sizes)
    ensures (exists n :: m <= n < |tokens| && Admits(camKey, tokens[n], screen, aspect)) ==>
      VideoResKey(camKey) in Keys(ScanTokens(g, camKey, Video, tokens, m, screen, aspect).sizes)
    decreases |tokens| - m
  {
    if m == |tokens| {
      assert ScanTokens(g, camKey, Video, tokens, m, screen, aspect) == g;
    } else {
      var g' := StepToken(g, camKey, Video, tokens[m], screen, aspect);
      VideoStep(g, values0, camKey, tokens, m, screen, aspect);
      StepMonotone(g, camKey, Video, tokens[m], screen, aspect);
      VideoScan(g', values0, camKey, tokens, m + 1, screen, aspect);
      var f := ScanTokens(g, camKey, Video, tokens, m, screen, aspect);
      assert f == ScanTokens(g', camKey, Video, tokens, m + 1, screen, aspect);
      if exists n :: m <= n < |tokens| && Admits(camKey, tokens[n], screen, aspect) {
        var n :| m <= n < |tokens| && Admits(camKey, tokens[n], screen, aspect);
        if n == m {
          assert VideoResKey(camKey) in Keys(g'.sizes);
        }
      }
    }
  }

  /** A token the video group admits. */
  predicate Admits(camKey: string, token: string, screen: Screen, aspect: string -> string) {
    TokenSafe(Video, token, aspect) && Admit(camKey, Video, token, screen, aspect).Some?
  }

  /**
   * After a video group the camera's VIDEORES@ and VIDEOFPS@ values come
   * from one and the same admitted token, and the frame-rate text parses
   * back to that token's rate; or the group stored nothing and left the
   * values as they were. It stores something whenever one of its tokens is
   * admitted.
   */
  lemma VideoGroupPairs(values: seq<(string, string)>, camKey: string, tokens: seq<string>, screen: Screen, aspect: string -> string)
    requires TokensSafe(Video, tokens, aspect)
    ensures var f := ScanTokens(GroupScan(values, [], 0), camKey, Video, tokens, 0, screen, aspect);
      && (|| f.values == values
          || exists n :: 0 <= n < |tokens| && TokenSafe(Video, tokens[n], aspect) &&
               match Admit(camKey, Video, tokens[n], screen, aspect)
               case None => false
               case Some(c) =>
                 && Get(f.values, VideoResKey(camKey)) == Some(c.value)
                 && Get(f.values, FpsKey(camKey)) == Some(Number(c.rate))
                 && ToInt(Number(c.rate)) == c.rate)
      && ((exists n :: 0 <= n < |tokens| && Admits(camKey, tokens[n], screen, aspect)) ==>
            exists n :: 0 <= n < |tokens| && HoldsToken(f, camKey, tokens[n], screen, aspect))
  {
    var g := GroupScan(values, [], 0);
    assert Keys<int>([]) == {};
    VideoScan(g, values, camKey, tokens, 0, screen, aspect);
    var f := ScanTokens(g, camKey, Video, tokens, 0, screen, aspect);
    if f.values != values || VideoResKey(camKey) in Keys(f.sizes) {
      var n :| 0 <= n < |tokens| && HoldsToken(f, camKey, tokens[n], screen, aspect);
      VideoKey(camKey, tokens[n], screen, aspect);
      ToIntNumber(Admit(camKey, Video, tokens[n], screen, aspect).value.rate);
    }
  }
}
