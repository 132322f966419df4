/** What counts as a sensitive edit of a cron, the fingerprint's byte stream, and the upsert decision. */
module CronSecurity {
  import opened Wrappers
  import opened JsonZeros

  const MAX_PROMPT_BYTES: nat := 65_536

  /** UTF-8 text: the octet 0xFF never occurs in it. */
  type Text = s: seq<byte> | 255 !in s

  type Bits64 = n: int | 0 <= n < 0x1_0000_0000_0000_0000

  type Int64 = n: int | -0x8000_0000_0000_0000 <= n < 0x8000_0000_0000_0000

  /** An IEEE 754 double, by its bits. */
  datatype Double = Double(bits: Bits64) {
    function Magnitude(): nat {
      bits % 0x8000_0000_0000_0000
    }

    predicate NaN() {
      Magnitude() > 0x7FF0_0000_0000_0000
    }

    predicate Zero() {
      Magnitude() == 0
    }

    /** Floating-point equality: nothing equals a NaN, and the two zeros are equal. */
    predicate Equals(other: Double) {
      !NaN() && !other.NaN() && (bits == other.bits || (Zero() && other.Zero()))
    }
  }

  /** In the format of IEEE 754: a NaN has an exponent of all ones and some fraction, a zero neither exponent nor fraction. */
  lemma DoublesAre(d: Double)
    ensures d.NaN() <==> d.bits / 0x10_0000_0000_0000 % 0x800 == 0x7FF && d.bits % 0x10_0000_0000_0000 != 0
    ensures d.Zero() <==> d.bits == 0 || d.bits == 0x8000_0000_0000_0000
  {
    var m := d.Magnitude();
    assert d.bits == m || d.bits == m + 0x8000_0000_0000_0000;
    assert m == m / 0x10_0000_0000_0000 * 0x10_0000_0000_0000 + m % 0x10_0000_0000_0000;
    assert m / 0x10_0000_0000_0000 < 0x800;
  }

  datatype Field =
    Prompt | BackendId | SpawnArgs | CronExpr | Timezone | CatchupMode | MaxRunsPerDay | CostBudgetUsdPerDay

  /** The eight sensitive fields; the spawn arguments by their canonical JSON bytes. */
  datatype Snapshot = Snapshot(
    backendId: Text,
    spawnArgs: seq<byte>,
    prompt: Text,
    cronExpr: Text,
    tz: Text,
    catchupMode: Text,
    maxRunsPerDay: Int64,
    budget: Option<Double>)

  datatype SecurityError =
    | PromptTooLarge(actual: nat, limit: nat)
    | InvalidConfirmationToken
    | ExpiredConfirmationToken
    | TokenCronMismatch
    | SensitiveSnapshotChanged
    | RandomToken

  predicate BudgetSame(a: Option<Double>, b: Option<Double>) {
    match (a, b)
    case (None, None) => true
    case (Some(x), Some(y)) => x.Equals(y)
    case _ => false
  }

  /** What it means for one sensitive field to differ. */
  predicate Differs(f: Field, a: Snapshot, b: Snapshot) {
    match f
    case Prompt => a.prompt != b.prompt
    case BackendId => a.backendId != b.backendId
    case SpawnArgs => !ArgsSame(a.spawnArgs, b.spawnArgs)
    case CronExpr => a.cronExpr != b.cronExpr
    case Timezone => a.tz != b.tz
    case CatchupMode => a.catchupMode != b.catchupMode
    case MaxRunsPerDay => a.maxRunsPerDay != b.maxRunsPerDay
    case CostBudgetUsdPerDay => !BudgetSame(a.budget, b.budget)
  }

  const SENSITIVE_FIELDS: seq<Field> :=
    [Prompt, BackendId, SpawnArgs, CronExpr, Timezone, CatchupMode, MaxRunsPerDay, CostBudgetUsdPerDay]

  /** Those of the given fields that differ, in their order. */
  function Differing(fs: seq<Field>, a: Snapshot, b: Snapshot): seq<Field> {
    if fs == [] then []
    else
      var front := Differing(fs[..|fs| - 1], a, b);
      if Differs(fs[|fs| - 1], a, b) then front + [fs[|fs| - 1]] else front
  }

  /** The sensitive fields on which two snapshots compare unequal, in the fixed order. */
  function ChangedFields(a: Snapshot, b: Snapshot): seq<Field> {
    Differing(SENSITIVE_FIELDS, a, b)
  }

  lemma {:induction false} DifferingMembers(fs: seq<Field>, a: Snapshot, b: Snapshot, f: Field)
    ensures f in Differing(fs, a, b) <==> f in fs && Differs(f, a, b)
  {
    hide Differs;
    if fs != [] {
      DifferingMembers(fs[..|fs| - 1], a, b, f);
      assert fs == fs[..|fs| - 1] + [fs[|fs| - 1]];
    }
  }

  /** A field is listed exactly when it differs. */
  lemma ChangedFieldsDiffer(a: Snapshot, b: Snapshot, f: Field)
    ensures f in ChangedFields(a, b) <==> Differs(f, a, b)
  {
    DifferingMembers(SENSITIVE_FIELDS, a, b, f);
    EveryFieldIsListed(f);
    hide Differs;
  }

  lemma EveryFieldIsListed(f: Field)
    ensures f in SENSITIVE_FIELDS
  {
    assert SENSITIVE_FIELDS[0] == Prompt && SENSITIVE_FIELDS[1] == BackendId && SENSITIVE_FIELDS[2] == SpawnArgs
           && SENSITIVE_FIELDS[3] == CronExpr && SENSITIVE_FIELDS[4] == Timezone && SENSITIVE_FIELDS[5] == CatchupMode
           && SENSITIVE_FIELDS[6] == MaxRunsPerDay && SENSITIVE_FIELDS[7] == CostBudgetUsdPerDay;
  }

  /** Equal in the six fields that are compared by their bytes. */
  predicate SameRest(a: Snapshot, b: Snapshot) {
    a.(spawnArgs := b.spawnArgs, budget := b.budget) == b
  }

  lemma ChangedEmptyIff(a: Snapshot, b: Snapshot)
    ensures ChangedFields(a, b) == []
            <==> SameRest(a, b) && ArgsSame(a.spawnArgs, b.spawnArgs) && BudgetSame(a.budget, b.budget)
  {
    forall f: Field ensures f in ChangedFields(a, b) <==> Differs(f, a, b) {
      ChangedFieldsDiffer(a, b, f);
    }
    hide ChangedFields, BudgetSame, ArgsSame;
    if ChangedFields(a, b) == [] {
      assert !Differs(Prompt, a, b) && !Differs(BackendId, a, b) && !Differs(SpawnArgs, a, b) && !Differs(CronExpr, a, b)
             && !Differs(Timezone, a, b) && !Differs(CatchupMode, a, b) && !Differs(MaxRunsPerDay, a, b)
             && !Differs(CostBudgetUsdPerDay, a, b);
    } else {
      assert ChangedFields(a, b)[0] in ChangedFields(a, b);
    }
  }

  /** One comparison: pushes the k-th field when it differs. */
  method PushIf(differs: bool, f: Field, changed: seq<Field>, ghost k: nat, ghost a: Snapshot, ghost b: Snapshot)
    returns (r: seq<Field>)
    requires k < |SENSITIVE_FIELDS| && f == SENSITIVE_FIELDS[k] && differs == Differs(f, a, b)
    requires changed == Differing(SENSITIVE_FIELDS[..k], a, b)
    ensures r == Differing(SENSITIVE_FIELDS[..k + 1], a, b)
  {
    assert SENSITIVE_FIELDS[..k + 1][..k] == SENSITIVE_FIELDS[..k];
    hide Differs;
    r := if differs then changed + [f] else changed;
  }

  /** The comparisons one after the other, pushing each field that differs. */
  method ChangedSensitiveFields(a: Snapshot, b: Snapshot) returns (changed: seq<Field>)
    ensures changed == ChangedFields(a, b)
  {
    hide Differing, BudgetSame, ArgsSame;
    assert Differing(SENSITIVE_FIELDS[..0], a, b) == [] by { NothingDiffers(a, b); }
    changed := [];
    changed := PushIf(a.prompt != b.prompt, Prompt, changed, 0, a, b);
    changed := PushIf(a.backendId != b.backendId, BackendId, changed, 1, a, b);
    changed := PushIf(!ArgsSame(a.spawnArgs, b.spawnArgs), SpawnArgs, changed, 2, a, b);
    changed := PushIf(a.cronExpr != b.cronExpr, CronExpr, changed, 3, a, b);
    changed := PushIf(a.tz != b.tz, Timezone, changed, 4, a, b);
    changed := PushIf(a.catchupMode != b.catchupMode, CatchupMode, changed, 5, a, b);
    changed := PushIf(a.maxRunsPerDay != b.maxRunsPerDay, MaxRunsPerDay, changed, 6, a, b);
    changed := PushIf(!BudgetSame(a.budget, b.budget), CostBudgetUsdPerDay, changed, 7, a, b);
    assert SENSITIVE_FIELDS[..8] == SENSITIVE_FIELDS;
  }

  lemma NothingDiffers(a: Snapshot, b: Snapshot)
    ensures Differing(SENSITIVE_FIELDS[..0], a, b) == []
  {
    assert SENSITIVE_FIELDS[..0] == [];
  }

  // The byte stream fed to the hasher.

  /** A string is followed by an octet no string contains. */
  function StringBytes(s: Text): seq<byte> {
    s + [255]
  }

  function Little(n: nat, k: nat): seq<byte> {
    if k == 0 then [] else [n % 256] + Little(n / 256, k - 1)
  }

  function Word(n: Bits64): seq<byte> {
    Little(n, 8)
  }

  /** Two's complement. */
  function Unsigned(n: Int64): Bits64 {
    if n < 0 then n + 0x1_0000_0000_0000_0000 else n
  }

  function BudgetBytes(b: Option<Double>): seq<byte> {
    match b
    case None => Word(0)
    case Some(v) => Word(1) + Word(v.bits)
  }

  /** Byte vectors are prefixed with their length. */
  function VecBytes(v: seq<byte>): seq<byte> {
    Word(|v| % 0x1_0000_0000_0000_0000) + v
  }

  function Stream(s: Snapshot): seq<byte> {
    StringBytes(s.prompt) + (StringBytes(s.backendId) + (VecBytes(s.spawnArgs) + (StringBytes(s.cronExpr)
    + (StringBytes(s.tz) + (StringBytes(s.catchupMode) + (Word(Unsigned(s.maxRunsPerDay)) + BudgetBytes(s.budget)))))))
  }

  /** Equally long fronts of equal sequences are equal, and so are the rests. */
  lemma SplitEqual<T>(a: seq<T>, s: seq<T>, b: seq<T>, t: seq<T>)
    requires |a| == |b| && a + s == b + t
    ensures a == b && s == t
  {
    assert (a + s)[..|a|] == a && (b + t)[..|b|] == b;
    assert (a + s)[|a|..] == s && (b + t)[|b|..] == t;
  }

  /** Terminated strings are prefix-free. */
  lemma StringSplit(a: Text, s: seq<byte>, b: Text, t: seq<byte>)
    requires StringBytes(a) + s == StringBytes(b) + t
    ensures a == b && s == t
  {
    var x, y := StringBytes(a) + s, StringBytes(b) + t;
    assert x[|a|] == 255 && y[|b|] == 255;
    assert forall i :: 0 <= i < |a| ==> x[i] == a[i] != 255;
    assert forall i :: 0 <= i < |b| ==> y[i] == b[i] != 255;
    assert |a| == |b|;
    SplitEqual(StringBytes(a), s, StringBytes(b), t);
    SplitEqual(a, [255], b, [255]);
  }

  function Pow256(k: nat): nat {
    if k == 0 then 1 else 256 * Pow256(k - 1)
  }

  lemma {:induction false} LittleInjective(m: nat, n: nat, k: nat)
    requires m < Pow256(k) && n < Pow256(k)
    ensures |Little(m, k)| == |Little(n, k)| == k
    ensures Little(m, k) == Little(n, k) ==> m == n
  {
    if k > 0 {
      LittleInjective(m / 256, n / 256, k - 1);
      if Little(m, k) == Little(n, k) {
        SplitEqual([m % 256], Little(m / 256, k - 1), [n % 256], Little(n / 256, k - 1));
      }
    }
  }

  lemma WordInjective(m: Bits64, n: Bits64)
    ensures |Word(m)| == |Word(n)| == 8
    ensures Word(m) == Word(n) ==> m == n
  {
    assert Pow256(2) == 0x1_0000;
    assert Pow256(4) == 0x1_0000_0000;
    assert Pow256(6) == 0x1_0000_0000_0000;
    assert Pow256(8) == 0x1_0000_0000_0000_0000;
    LittleInjective(m, n, 8);
  }

  lemma WordSplit(m: Bits64, s: seq<byte>, n: Bits64, t: seq<byte>)
    requires Word(m) + s == Word(n) + t
    ensures m == n && s == t
  {
    hide Word;
    WordInjective(m, n);
    SplitEqual(Word(m), s, Word(n), t);
  }

  /** Every byte vector of a 64-bit machine has a length that fits its prefix. */
  predicate Addressable(s: Snapshot) {
    |s.spawnArgs| < 0x1_0000_0000_0000_0000
  }

  lemma VecSplit(v: seq<byte>, s: seq<byte>, w: seq<byte>, t: seq<byte>)
    requires |v| < 0x1_0000_0000_0000_0000 && |w| < 0x1_0000_0000_0000_0000
    requires VecBytes(v) + s == VecBytes(w) + t
    ensures v == w && s == t
  {
    hide Word;
    var m, n := |v|, |w|;
    assert Word(m) + (v + s) == VecBytes(v) + s;
    assert Word(n) + (w + t) == VecBytes(w) + t;
    WordSplit(m, v + s, n, w + t);
    SplitEqual(v, s, w, t);
  }

  lemma BudgetInjective(a: Option<Double>, b: Option<Double>)
    ensures BudgetBytes(a) == BudgetBytes(b) <==> a == b
  {
    hide Word;
    WordInjective(0, if a.Some? then a.value.bits else 0);
    WordInjective(0, if b.Some? then b.value.bits else 0);
    WordInjective(0, 1);
    if a.Some? && b.Some? && BudgetBytes(a) == BudgetBytes(b) {
      WordSplit(1, Word(a.value.bits), 1, Word(b.value.bits));
      WordInjective(a.value.bits, b.value.bits);
    }
  }

  lemma UnsignedInjective(a: Int64, b: Int64)
    requires Unsigned(a) == Unsigned(b)
    ensures a == b
  {
  }

  /** Different snapshots feed the hasher different bytes. */
  lemma StreamInjective(a: Snapshot, b: Snapshot)
    requires Addressable(a) && Addressable(b)
    ensures Stream(a) == Stream(b) <==> a == b
  {
    hide StringBytes, VecBytes, Word, BudgetBytes, Unsigned;
    if Stream(a) == Stream(b) {
      var a6, b6 := Word(Unsigned(a.maxRunsPerDay)) + BudgetBytes(a.budget), Word(Unsigned(b.maxRunsPerDay)) + BudgetBytes(b.budget);
      var a5, b5 := StringBytes(a.catchupMode) + a6, StringBytes(b.catchupMode) + b6;
      var a4, b4 := StringBytes(a.tz) + a5, StringBytes(b.tz) + b5;
      var a3, b3 := StringBytes(a.cronExpr) + a4, StringBytes(b.cronExpr) + b4;
      var a2, b2 := VecBytes(a.spawnArgs) + a3, VecBytes(b.spawnArgs) + b3;
      var a1, b1 := StringBytes(a.backendId) + a2, StringBytes(b.backendId) + b2;
      StringSplit(a.prompt, a1, b.prompt, b1);
      StringSplit(a.backendId, a2, b.backendId, b2);
      VecSplit(a.spawnArgs, a3, b.spawnArgs, b3);
      StringSplit(a.cronExpr, a4, b.cronExpr, b4);
      StringSplit(a.tz, a5, b.tz, b5);
      StringSplit(a.catchupMode, a6, b.catchupMode, b6);
      WordSplit(Unsigned(a.maxRunsPerDay), BudgetBytes(a.budget), Unsigned(b.maxRunsPerDay), BudgetBytes(b.budget));
      UnsignedInjective(a.maxRunsPerDay, b.maxRunsPerDay);
      BudgetInjective(a.budget, b.budget);
    }
  }

  predicate NaNBudget(s: Snapshot) {
    s.budget.Some? && s.budget.value.NaN()
  }

  predicate ZeroBudgets(a: Option<Double>, b: Option<Double>) {
    a.Some? && b.Some? && a.value.Zero() && b.value.Zero()
  }

  /** Two snapshots that differ in the signs of some zeros, and in nothing else. */
  predicate ZeroSignsDiffer(a: Snapshot, b: Snapshot) {
    && a != b
    && SameRest(a, b) && ArgsSame(a.spawnArgs, b.spawnArgs)
    && (ZeroBudgets(a.budget, b.budget) || (a.budget == b.budget && !NaNBudget(a)))
  }

  /**
   The stream and the field comparison agree on whether a snapshot changed, except exactly when
   nothing changed but the budget is a NaN, or nothing but the signs of zeros did.
   */
  lemma FingerprintSeesChangeIff(a: Snapshot, b: Snapshot)
    requires Addressable(a) && Addressable(b)
    ensures (Stream(a) == Stream(b) <==> ChangedFields(a, b) == [])
            <==> !((a == b && NaNBudget(a)) || ZeroSignsDiffer(a, b))
  {
    hide Stream, ChangedFields;
    StreamInjective(a, b);
    ChangedEmptyIff(a, b);
    BudgetSameIff(a, b);
    hide BudgetSame, ZeroBudgets, NaNBudget, WithoutZeroSigns;
  }

  lemma BudgetSameIff(a: Snapshot, b: Snapshot)
    ensures BudgetSame(a.budget, b.budget)
            <==> ZeroBudgets(a.budget, b.budget) || (a.budget == b.budget && !NaNBudget(a))
  {
    assert a.budget.Some? && a.budget.value.Zero() ==> !a.budget.value.NaN();
    assert b.budget.Some? && b.budget.value.Zero() ==> !b.budget.value.NaN();
  }

  /** Equal in every sensitive field, numbers as numbers. */
  predicate SameSensitive(a: Snapshot, b: Snapshot) {
    SameRest(a, b) && ArgsSame(a.spawnArgs, b.spawnArgs) && (a.budget == b.budget || BudgetSame(a.budget, b.budget))
  }

  datatype Decision = Decision(enabledAfterUpsert: bool, requiresReconfirmation: bool, changed: seq<Field>)

  /** The upsert decision. An enabled flag without a row counts as disabled. */
  function DecideUpsert(existingEnabled: bool, existing: Option<Snapshot>, next: Snapshot): Result<Decision, SecurityError> {
    if |next.prompt| > MAX_PROMPT_BYTES then Err(PromptTooLarge(|next.prompt|, MAX_PROMPT_BYTES))
    else
      var wasEnabled := existing.Some? && existingEnabled;
      var changed := if existing.Some? then ChangedFields(existing.value, next) else [];
      var reconfirm := wasEnabled && changed != [];
      Ok(Decision(wasEnabled && !reconfirm, reconfirm, changed))
  }

  /** An upsert keeps a cron enabled exactly when it was and nothing sensitive differs; it never enables one. Only too long a prompt is refused. */
  lemma UpsertNeverEnables(existingEnabled: bool, existing: Option<Snapshot>, next: Snapshot)
    ensures var r := DecideUpsert(existingEnabled, existing, next);
            && (r.Err? <==> |next.prompt| > MAX_PROMPT_BYTES)
            && (r.Ok? ==>
                  && (r.value.enabledAfterUpsert <==>
                        existing.Some? && existingEnabled && forall f :: !Differs(f, existing.value, next))
                  && (r.value.requiresReconfirmation <==> existing.Some? && existingEnabled && !r.value.enabledAfterUpsert)
                  && (r.value.enabledAfterUpsert ==> SameSensitive(existing.value, next))
                  && forall f :: f in r.value.changed <==> existing.Some? && Differs(f, existing.value, next))
  {
    if existing.Some? {
      ChangedEmptyIff(existing.value, next);
      forall f ensures f in ChangedFields(existing.value, next) <==> Differs(f, existing.value, next) {
        ChangedFieldsDiffer(existing.value, next, f);
      }
      hide ChangedFields, Differs, BudgetSame, ArgsSame;
      if ChangedFields(existing.value, next) != [] {
        assert ChangedFields(existing.value, next)[0] in ChangedFields(existing.value, next);
      }
    }
    hide ChangedFields, Differs, BudgetSame, ArgsSame;
  }
}
