/** The rules resolvers (src/game/rules.ts): the core-rule table, the
    precedence that decides whether an action or effect is allowed, and the
    filter that keeps only the instructions a card can carry out. */
module Rules {
  import opened Wrappers

  datatype CoreRule = CoreRule(id: string, title: string)

  /** `coreRules`; the rule text is prose and is not part of this model. */
  const CoreRules: seq<CoreRule> := [
    CoreRule("002", "Golden Rule"),
    CoreRule("051", "Silver Rule"),
    CoreRule("052", "Card Definition"),
    CoreRule("053", "Self-Reference"),
    CoreRule("054.1", "Can't Beats Can"),
    CoreRule("266", "Impossible Instructions")
  ]

  const GoldenRule := "002"
  const CantBeatsCan := "054.1"
  const ImpossibleInstructions := "266"
  /** The id cited when no rule applies. */
  const NoRule := "000"

  function RuleIds(rules: seq<CoreRule>): (ids: seq<string>)
    ensures |ids| == |rules| && forall i :: 0 <= i < |rules| ==> ids[i] == rules[i].id
  {
    seq(|rules|, i requires 0 <= i < |rules| => rules[i].id)
  }

  /** The table's ids are distinct, hold every id the resolvers cite, and not the sentinel. */
  lemma CoreRuleIds()
    ensures forall i, j :: 0 <= i < j < |CoreRules| ==> CoreRules[i].id != CoreRules[j].id
    ensures GoldenRule in RuleIds(CoreRules) && CantBeatsCan in RuleIds(CoreRules)
    ensures ImpossibleInstructions in RuleIds(CoreRules)
    ensures NoRule !in RuleIds(CoreRules)
  {
    var ids := RuleIds(CoreRules);
    assert ids == ["002", "051", "052", "053", "054.1", "266"];
  }

  // ---- resolvePermissions ----

  datatype Source = RuleSource | CardSource
  datatype PermissionType = Allow | Forbid

  /** `EffectPermission`: who asserts it, what it asserts, and the rule it cites. */
  datatype EffectPermission = EffectPermission(source: Source, kind: PermissionType, description: string, ruleId: Option<string>)

  /** Which of the four outcomes applied; stands for the `reason` text. */
  datatype Reason = CardForbids | CardPermits | RuleForbids | NothingForbids

  datatype PermissionResolution = PermissionResolution(allowed: bool, appliedRuleId: string, reason: Reason)

  predicate Is(p: EffectPermission, source: Source, kind: PermissionType) {
    p.source == source && p.kind == kind
  }

  /** Some permission in the list has that source and type. */
  predicate Has(ps: seq<EffectPermission>, source: Source, kind: PermissionType) {
    exists i :: 0 <= i < |ps| && Is(ps[i], source, kind)
  }

  /** `ps[i]` is the first permission with that source and type. */
  predicate FirstAt(ps: seq<EffectPermission>, source: Source, kind: PermissionType, i: int) {
    0 <= i < |ps| && Is(ps[i], source, kind) && forall j :: 0 <= j < i ==> !Is(ps[j], source, kind)
  }

  /** `permissions.filter(…)` on a source and a type. */
  function Matching(ps: seq<EffectPermission>, source: Source, kind: PermissionType): (r: seq<EffectPermission>)
    ensures |r| <= |ps|
    ensures forall p :: p in r <==> p in ps && Is(p, source, kind)
  {
    if ps == [] then []
    else (if Is(ps[0], source, kind) then [ps[0]] else []) + Matching(ps[1..], source, kind)
  }

  /** The filter is empty exactly when no permission matches, and starts with the first that does. */
  lemma {:induction false} MatchingFirst(ps: seq<EffectPermission>, source: Source, kind: PermissionType)
    ensures Matching(ps, source, kind) != [] <==> Has(ps, source, kind)
    ensures forall i :: FirstAt(ps, source, kind, i) ==> Matching(ps, source, kind)[0] == ps[i]
  {
    if ps != [] {
      MatchingFirst(ps[1..], source, kind);
      forall i | FirstAt(ps, source, kind, i) ensures Matching(ps, source, kind)[0] == ps[i] {
        if i > 0 {
          assert FirstAt(ps[1..], source, kind, i - 1);
        }
      }
      if Has(ps, source, kind) && !Is(ps[0], source, kind) {
        var i :| 0 <= i < |ps| && Is(ps[i], source, kind);
        assert Is(ps[1..][i - 1], source, kind);
      }
    }
  }

  /** What a rule forbid cites: its `ruleId`, or the sentinel when it has none. */
  function CitedId(p: EffectPermission): string {
    match p.ruleId
    case Some(id) => id
    case None => NoRule
  }

  /** `resolvePermissions(permissions)`. */
  function ResolvePermissions(ps: seq<EffectPermission>): (r: PermissionResolution)
    ensures Has(ps, CardSource, Forbid) ==> r == PermissionResolution(false, CantBeatsCan, CardForbids)
    ensures !Has(ps, CardSource, Forbid) && Has(ps, CardSource, Allow) ==>
      r == PermissionResolution(true, GoldenRule, CardPermits)
    ensures !Has(ps, CardSource, Forbid) && !Has(ps, CardSource, Allow) && Has(ps, RuleSource, Forbid) ==>
      !r.allowed && r.reason == RuleForbids &&
      forall i :: FirstAt(ps, RuleSource, Forbid, i) ==> r.appliedRuleId == CitedId(ps[i])
    ensures !Has(ps, CardSource, Forbid) && !Has(ps, CardSource, Allow) && !Has(ps, RuleSource, Forbid) ==>
      r == PermissionResolution(true, NoRule, NothingForbids)
  {
    MatchingFirst(ps, CardSource, Forbid);
    MatchingFirst(ps, CardSource, Allow);
    MatchingFirst(ps, RuleSource, Forbid);
    var cardForbids := Matching(ps, CardSource, Forbid);
    if |cardForbids| > 0 then PermissionResolution(false, CantBeatsCan, CardForbids)
    else
      var cardAllows := Matching(ps, CardSource, Allow);
      if |cardAllows| > 0 then PermissionResolution(true, GoldenRule, CardPermits)
      else
        var ruleForbids := Matching(ps, RuleSource, Forbid);
        if |ruleForbids| > 0 then PermissionResolution(false, CitedId(ruleForbids[0]), RuleForbids)
        else PermissionResolution(true, NoRule, NothingForbids)
  }

  /** Every list has a first rule forbid when it has one at all. */
  lemma FirstExists(ps: seq<EffectPermission>, source: Source, kind: PermissionType) returns (i: nat)
    requires Has(ps, source, kind)
    ensures FirstAt(ps, source, kind, i)
  {
    i := 0;
    while !Is(ps[i], source, kind)
      invariant 0 <= i < |ps|
      invariant forall j :: 0 <= j < i ==> !Is(ps[j], source, kind)
      invariant exists k :: i <= k < |ps| && Is(ps[k], source, kind)
      decreases |ps| - i
    {
      i := i + 1;
    }
  }

  /** The action is allowed exactly when no card forbids it and either a card
      allows it or no rule forbids it; the id cited is a core rule's, the
      sentinel, or one the first rule forbid carries. */
  lemma PermissionOutcome(ps: seq<EffectPermission>)
    ensures ResolvePermissions(ps).allowed <==>
      !Has(ps, CardSource, Forbid) && (Has(ps, CardSource, Allow) || !Has(ps, RuleSource, Forbid))
    ensures var id := ResolvePermissions(ps).appliedRuleId;
      id in RuleIds(CoreRules) || id == NoRule || exists p :: p in ps && Is(p, RuleSource, Forbid) && p.ruleId == Some(id)
  {
    CoreRuleIds();
    if !Has(ps, CardSource, Forbid) && !Has(ps, CardSource, Allow) && Has(ps, RuleSource, Forbid) {
      var i := FirstExists(ps, RuleSource, Forbid);
      assert ps[i] in ps;
    }
  }

  lemma MatchingInsert(ps: seq<EffectPermission>, k: nat, p: EffectPermission, source: Source, kind: PermissionType)
    requires k <= |ps| && !Is(p, source, kind)
    ensures Matching(ps[..k] + [p] + ps[k..], source, kind) == Matching(ps, source, kind)
  {
    assert ps == ps[..k] + ps[k..];
    assert Matching([p], source, kind) == [] by {
      assert [p][1..] == [];
    }
    MatchingAppend(ps[..k] + [p], ps[k..], source, kind);
    MatchingAppend(ps[..k], [p], source, kind);
    MatchingAppend(ps[..k], ps[k..], source, kind);
  }

  /** Permissions a rule grants never change the outcome, wherever they appear. */
  lemma RuleAllowIrrelevant(ps: seq<EffectPermission>, k: nat, p: EffectPermission)
    requires k <= |ps| && Is(p, RuleSource, Allow)
    ensures ResolvePermissions(ps[..k] + [p] + ps[k..]) == ResolvePermissions(ps)
  {
    MatchingInsert(ps, k, p, CardSource, Forbid);
    MatchingInsert(ps, k, p, CardSource, Allow);
    MatchingInsert(ps, k, p, RuleSource, Forbid);
  }

  lemma {:induction false} MatchingAppend(a: seq<EffectPermission>, b: seq<EffectPermission>, source: Source, kind: PermissionType)
    ensures Matching(a + b, source, kind) == Matching(a, source, kind) + Matching(b, source, kind)
  {
    if a != [] {
      assert (a + b)[1..] == a[1..] + b;
      MatchingAppend(a[1..], b, source, kind);
    } else {
      assert a + b == b;
    }
  }

  /** Reordering the permissions changes at most the id cited for a rule forbid. */
  lemma ReorderKeepsDecision(ps: seq<EffectPermission>, qs: seq<EffectPermission>)
    requires multiset(ps) == multiset(qs)
    ensures ResolvePermissions(ps).allowed == ResolvePermissions(qs).allowed
    ensures ResolvePermissions(ps).reason == ResolvePermissions(qs).reason
    ensures ResolvePermissions(ps).reason != RuleForbids ==> ResolvePermissions(ps) == ResolvePermissions(qs)
  {
    forall s: Source, t: PermissionType ensures Has(ps, s, t) <==> Has(qs, s, t) {
      SameElementsHas(ps, qs, s, t);
    }
  }

  lemma SameElementsHas(ps: seq<EffectPermission>, qs: seq<EffectPermission>, source: Source, kind: PermissionType)
    requires multiset(ps) == multiset(qs)
    ensures Has(ps, source, kind) <==> Has(qs, source, kind)
  {
    if Has(ps, source, kind) {
      var i :| 0 <= i < |ps| && Is(ps[i], source, kind);
      assert ps[i] in multiset(ps);
      assert ps[i] in qs;
    }
    if Has(qs, source, kind) {
      var i :| 0 <= i < |qs| && Is(qs[i], source, kind);
      assert qs[i] in multiset(qs);
      assert qs[i] in ps;
    }
  }

  /** With two rule forbids and nothing else, the first one's id is cited. */
  lemma FirstRuleForbidCited()
    ensures ResolvePermissions([
      EffectPermission(RuleSource, Forbid, "", Some("999")),
      EffectPermission(RuleSource, Forbid, "", Some("111"))]).appliedRuleId == "999"
  {
    var ps := [EffectPermission(RuleSource, Forbid, "", Some("999")), EffectPermission(RuleSource, Forbid, "", Some("111"))];
    assert FirstAt(ps, RuleSource, Forbid, 0);
  }

  // ---- resolveInstructions ----

  /** `GameInstruction`. */
  datatype GameInstruction = GameInstruction(id: string, description: string, possible: bool)

  datatype InstructionResolution = InstructionResolution(
    instructions: seq<GameInstruction>, appliedRuleId: Option<string>, note: Option<string>)

  const ImpossibleNote := "All instructions are impossible; resolve with no effect."

  /** `instructions.filter((instruction) => instruction.possible)`. */
  function PossibleOnly(ins: seq<GameInstruction>): (r: seq<GameInstruction>)
    ensures |r| <= |ins|
    ensures forall x :: x in r <==> x in ins && x.possible
  {
    if ins == [] then []
    else (if ins[0].possible then [ins[0]] else []) + PossibleOnly(ins[1..])
  }

  /** The filter keeps input order: it maps a concatenation to the concatenation
      of its parts, and keeps a single instruction exactly when it is possible. */
  lemma {:induction false} PossibleOnlyAppend(a: seq<GameInstruction>, b: seq<GameInstruction>)
    ensures PossibleOnly(a + b) == PossibleOnly(a) + PossibleOnly(b)
  {
    if a != [] {
      assert (a + b)[1..] == a[1..] + b;
      PossibleOnlyAppend(a[1..], b);
    } else {
      assert a + b == b;
    }
  }

  lemma PossibleOnlySingle(x: GameInstruction)
    ensures PossibleOnly([x]) == if x.possible then [x] else []
  {
    assert [x][1..] == [];
  }

  /** Each instruction is kept as often as it occurs, if possible. */
  lemma {:induction false} PossibleOnlyCounts(ins: seq<GameInstruction>, x: GameInstruction)
    ensures multiset(PossibleOnly(ins))[x] == if x.possible then multiset(ins)[x] else 0
  {
    if ins != [] {
      PossibleOnlyCounts(ins[1..], x);
      assert ins == [ins[0]] + ins[1..];
    }
  }

  /** `resolveInstructions(instructions)`. */
  function ResolveInstructions(ins: seq<GameInstruction>): (r: InstructionResolution)
    ensures r.instructions == PossibleOnly(ins)
    ensures r.appliedRuleId == Some(ImpossibleInstructions) <==> forall i :: 0 <= i < |ins| ==> !ins[i].possible
    ensures r.appliedRuleId.Some? ==> r.appliedRuleId == Some(ImpossibleInstructions) && r.note == Some(ImpossibleNote)
    ensures r.appliedRuleId.None? ==> r.note.None? && r.instructions != []
  {
    var possible := PossibleOnly(ins);
    if |possible| == 0 then
      assert forall i :: 0 <= i < |ins| ==> ins[i] in ins;
      InstructionResolution([], Some(ImpossibleInstructions), Some(ImpossibleNote))
    else
      assert possible[0] in ins;
      InstructionResolution(possible, None, None)
  }
}
