/** tools/pkg/fccutils/registration.go: RegisterNode, the resumable registration of a TEE machine. */
module Registration {
  import opened Types

  type Id = nat    // an instruction id; 0 is the zero hash

  datatype Saved = Saved(steps: string, attestId: Id, checkId: Id)

  const NOTHING: Saved := Saved("", 0, 0)

  /** The state file. A write that fails half way leaves something that does not parse. */
  datatype File = Missing | Holds(saved: Saved) | Unparsable

  datatype SaveOutcome = Written | Untouched | Torn

  /** What the chain, the proxies and the file system answer during one attempt. */
  datatype Answers = Answers(
    loaded: bool,                  // TeeProxyId succeeds and the state file can be read
    registered: bool,              // GetTeeMachine finds the machine
    preRegister: Option<Id>,       // PreRegistration, or None for an error
    attest: Option<Id>,            // RequestTeeAttestation made in step r
    request: Option<Id>,           // RequestTeeAttestation made in step R
    policyConsistent: bool,
    check: Option<Id>,             // RequestFTDCAvailabilityCheck
    proof: bool,                   // GetFTDCAvailabilityCheckResult succeeds
    promoted: bool,                // ToProduction succeeds
    savePre: SaveOutcome,          // saving after step r
    saveR: SaveOutcome,            // after step R
    saveA: SaveOutcome,            // after step a
    removed: bool)

  /** A successful request to the outside, in the order made. */
  datatype Deed =
    | PreRegistered(id: Id)
    | AttestedAgain(id: Id)                     // step r on a machine already registered
    | Attested(id: Id)                          // step R
    | Checked(attestId: Id, id: Id)             // step a, and the attestation it names
    | Fetched(id: Id)                           // step p, and the check it reads
    | Promoted(id: Id)

  function Save(f: File, outcome: SaveOutcome, s: Saved): File {
    match outcome
    case Written => Holds(s)
    case Untouched => f
    case Torn => Unparsable
  }

  // ---------------------------------------------------------------- the attempt, step by step

  /** Progress inside an attempt: what is in memory, on disk, done, and whether it already failed. */
  datatype Progress = Progress(file: File, deeds: seq<Deed>, state: Saved, attestId: Id, failed: bool)

  datatype End = End(file: File, deeds: seq<Deed>, ok: bool)

  function StepPreRegister(p: Progress, command: string, answers: Answers): Progress {
    if p.failed || 'r' !in command then p
    else if 'r' in p.state.steps then p.(attestId := p.state.attestId)
    else
      var got := if answers.registered then answers.attest else answers.preRegister;
      if got.None? then p.(failed := true)
      else
        var id := got.value;
        var state := p.state.(steps := p.state.steps + "r", attestId := id);
        p.(deeds := p.deeds + [if answers.registered then AttestedAgain(id) else PreRegistered(id)],
           state := state, attestId := id, file := Save(p.file, answers.savePre, state))
  }

  function StepAttest(p: Progress, command: string, answers: Answers): Progress {
    if p.failed || 'R' !in command then p
    else if 'R' in p.state.steps then p.(attestId := p.state.attestId)
    else if answers.request.None? then p.(failed := true)
    else
      var id := answers.request.value;
      var state := p.state.(steps := p.state.steps + "R", attestId := id);
      p.(deeds := p.deeds + [Attested(id)], state := state, attestId := id, file := Save(p.file, answers.saveR, state))
  }

  function StepCheck(p: Progress, command: string, answers: Answers): Progress {
    if p.failed || 'a' !in command || 'a' in p.state.steps then p
    else if !answers.policyConsistent || answers.check.None? then p.(failed := true)
    else
      var id := answers.check.value;
      var state := p.state.(steps := p.state.steps + "a", checkId := id);
      p.(deeds := p.deeds + [Checked(p.attestId, id)], state := state, file := Save(p.file, answers.saveA, state))
  }

  function StepPromote(p: Progress, command: string, instructionId: Id, answers: Answers): End {
    var checkId := if 'a' in command then p.state.checkId else instructionId;
    var gone := if answers.removed then Missing else p.file;
    if p.failed then End(p.file, p.deeds, false)
    else if 'p' !in command then End(gone, p.deeds, true)
    else if !answers.proof then End(p.file, p.deeds, false)
    else if !answers.promoted then End(p.file, p.deeds + [Fetched(checkId)], false)
    else End(gone, p.deeds + [Fetched(checkId), Promoted(checkId)], true)
  }

  function Attempt(f: File, deeds: seq<Deed>, command: string, instructionId: Id, answers: Answers): End {
    if !answers.loaded || f == Unparsable then End(f, deeds, false)
    else
      var start := Progress(f, deeds, if f.Holds? then f.saved else NOTHING, 0, false);
      StepPromote(StepCheck(StepAttest(StepPreRegister(start, command, answers), command, answers), command, answers),
                  command, instructionId, answers)
  }

  // ---------------------------------------------------------------- the command

  class Registrar {
    var file: File
    var deeds: seq<Deed>

    constructor ()
      ensures file == Missing && deeds == []
    {
      file, deeds := Missing, [];
    }

    /** Step r: on a machine already on chain it asks for a fresh attestation instead. */
    method PreRegistration(saved: Saved, command: string, answers: Answers)
      returns (state: Saved, attestId: Id, failed: bool)
      modifies this
      ensures Progress(file, deeds, state, attestId, failed)
           == StepPreRegister(Progress(old(file), old(deeds), saved, 0, false), command, answers)
    {
      state, attestId, failed := saved, 0, false;
      if 'r' in command {
        if 'r' in state.steps {
          attestId := state.attestId;
        } else {
          if answers.registered {
            if answers.attest.None? {
              return state, attestId, true;
            }
            attestId := answers.attest.value;
            deeds := deeds + [AttestedAgain(attestId)];
          } else {
            if answers.preRegister.None? {
              return state, attestId, true;
            }
            attestId := answers.preRegister.value;
            deeds := deeds + [PreRegistered(attestId)];
          }
          state := state.(steps := state.steps + "r", attestId := attestId);
          file := Save(file, answers.savePre, state);
        }
      }
    }

    /** Step R. */
    method RequestAttestation(saved: Saved, soFar: Id, command: string, answers: Answers)
      returns (state: Saved, attestId: Id, failed: bool)
      modifies this
      ensures Progress(file, deeds, state, attestId, failed)
           == StepAttest(Progress(old(file), old(deeds), saved, soFar, false), command, answers)
    {
      state, attestId, failed := saved, soFar, false;
      if 'R' in command {
        if 'R' in state.steps {
          attestId := state.attestId;
        } else {
          if answers.request.None? {
            return state, attestId, true;
          }
          attestId := answers.request.value;
          deeds := deeds + [Attested(attestId)];
          state := state.(steps := state.steps + "R", attestId := attestId);
          file := Save(file, answers.saveR, state);
        }
      }
    }

    /** Step a, which first fails fast on an inconsistent signing policy. */
    method RequestCheck(saved: Saved, attestId: Id, command: string, answers: Answers)
      returns (state: Saved, failed: bool)
      modifies this
      ensures Progress(file, deeds, state, attestId, failed)
           == StepCheck(Progress(old(file), old(deeds), saved, attestId, false), command, answers)
    {
      state, failed := saved, false;
      if 'a' in command && 'a' !in state.steps {
        if !answers.policyConsistent || answers.check.None? {
          return state, true;
        }
        var id := answers.check.value;
        deeds := deeds + [Checked(attestId, id)];
        state := state.(steps := state.steps + "a", checkId := id);
        file := Save(file, answers.saveA, state);
      }
    }

    /** One attempt; false is the returned error. */
    method RegisterNode(command: string, instructionId: Id, answers: Answers) returns (ok: bool)
      modifies this
      ensures Attempt(old(file), old(deeds), command, instructionId, answers) == End(file, deeds, ok)
    {
      if !answers.loaded || file == Unparsable {
        return false;
      }
      var state := if file.Holds? then file.saved else NOTHING;
      var attestId: Id := 0;
      var failed: bool;
      state, attestId, failed := PreRegistration(state, command, answers);
      if failed {
        return false;
      }
      state, attestId, failed := RequestAttestation(state, attestId, command, answers);
      if failed {
        return false;
      }
      state, failed := RequestCheck(state, attestId, command, answers);
      if failed {
        return false;
      }
      var checkId := if 'a' in command then state.checkId else instructionId;
      if 'p' in command {
        if !answers.proof {
          return false;
        }
        deeds := deeds + [Fetched(checkId)];
        if !answers.promoted {
          return false;
        }
        deeds := deeds + [Promoted(checkId)];
      }
      if answers.removed {
        file := Missing;
      }
      return true;
    }

  }

  // ---------------------------------------------------------------- attempts with the command rRap

  const DEPLOY: string := "rRap"

  /** The id of the latest successful R. */
  function LatestAttestation(deeds: seq<Deed>): Option<Id> {
    if deeds == [] then None
    else
      var last := deeds[|deeds| - 1];
      if last.Attested? then Some(last.id) else LatestAttestation(deeds[..|deeds| - 1])
  }

  /** The id of the latest successful a. */
  function LatestCheck(deeds: seq<Deed>): Option<Id> {
    if deeds == [] then None
    else
      var last := deeds[|deeds| - 1];
      if last.Checked? then Some(last.id) else LatestCheck(deeds[..|deeds| - 1])
  }

  /** What one more deed may be: a check names the latest attestation, and fetching and promoting name
      the latest check. */
  predicate Follows(before: seq<Deed>, d: Deed) {
    match d
    case Checked(attestId, _) => LatestAttestation(before) == Some(attestId)
    case Fetched(id) => LatestCheck(before) == Some(id)
    case Promoted(id) => LatestCheck(before) == Some(id)
    case _ => true
  }

  predicate InOrder(deeds: seq<Deed>) {
    forall k :: 0 <= k < |deeds| ==> Follows(deeds[..k], deeds[k])
  }

  /** A record of progress: a prefix of the steps, with the ids of the latest requests. */
  predicate Truthful(s: Saved, deeds: seq<Deed>) {
    && s.steps <= "rRa"
    && ('R' in s.steps ==> LatestAttestation(deeds) == Some(s.attestId))
    && ('a' in s.steps ==> LatestCheck(deeds) == Some(s.checkId))
  }

  predicate FileTruthful(f: File, deeds: seq<Deed>) {
    f.Holds? ==> Truthful(f.saved, deeds)
  }

  /** A record on disk is never ahead of memory: what it claims is what memory claims. */
  predicate Behind(f: File, s: Saved) {
    f.Holds? ==> f.saved.steps <= s.steps && ('R' in f.saved.steps ==> f.saved.attestId == s.attestId)
                 && ('a' in f.saved.steps ==> f.saved.checkId == s.checkId)
  }

  /** An attempt that reports success has just promoted. */
  predicate SuccessPromotes(e: End) { e.ok ==> |e.deeds| > 0 && e.deeds[|e.deeds| - 1].Promoted? }

  predicate Going(p: Progress) {
    Truthful(p.state, p.deeds) && InOrder(p.deeds) && FileTruthful(p.file, p.deeds) && Behind(p.file, p.state)
  }

  lemma StepsOfPrefix(steps: string)
    requires steps <= "rRa"
    ensures ('r' in steps <==> |steps| >= 1) && ('R' in steps <==> |steps| >= 2) && ('a' in steps <==> |steps| >= 3)
    ensures |steps| < 3 ==> steps + ["rRa"[|steps|]] <= "rRa"
  {
    assert forall i :: 0 <= i < |steps| ==> steps[i] == "rRa"[i];
    assert |steps| >= 1 ==> steps[0] == 'r';
    assert |steps| >= 2 ==> steps[1] == 'R';
    assert |steps| >= 3 ==> steps[2] == 'a';
  }

  lemma OneMoreDeed(deeds: seq<Deed>, d: Deed)
    requires InOrder(deeds) && Follows(deeds, d)
    ensures InOrder(deeds + [d])
    ensures LatestAttestation(deeds + [d]) == if d.Attested? then Some(d.id) else LatestAttestation(deeds)
    ensures LatestCheck(deeds + [d]) == if d.Checked? then Some(d.id) else LatestCheck(deeds)
  {
    var all := deeds + [d];
    assert all[..|deeds|] == deeds;
    forall k | 0 <= k < |all| ensures Follows(all[..k], all[k]) {
      assert all[..k] == deeds[..k];
    }
  }

  /** Whatever a save does to the file, the file stays truthful and behind the record saved. */
  lemma SaveKeepsFile(f: File, outcome: SaveOutcome, s: Saved, deeds: seq<Deed>)
    requires Truthful(s, deeds) && FileTruthful(f, deeds) && Behind(f, s)
    ensures FileTruthful(Save(f, outcome, s), deeds) && Behind(Save(f, outcome, s), s)
  {
  }

  lemma PreRegisterKeepsGoing(p: Progress, answers: Answers)
    requires Going(p) && !p.failed
    ensures var q := StepPreRegister(p, DEPLOY, answers);
            Going(q) && (!q.failed ==> 'r' in q.state.steps)
  {
    StepsOfPrefix(p.state.steps);
    var got := if answers.registered then answers.attest else answers.preRegister;
    if 'r' !in p.state.steps && got.Some? {
      var id := got.value;
      var d := if answers.registered then AttestedAgain(id) else PreRegistered(id);
      var state := p.state.(steps := p.state.steps + "r", attestId := id);
      OneMoreDeed(p.deeds, d);
      StepsOfPrefix(state.steps);
      if p.file.Holds? {
        StepsOfPrefix(p.file.saved.steps);
        assert |p.file.saved.steps| <= |p.state.steps| == 0;
      }
      assert Truthful(state, p.deeds + [d]);
      SaveKeepsFile(p.file, answers.savePre, state, p.deeds + [d]);
    }
  }

  lemma AttestKeepsGoing(p: Progress, answers: Answers)
    requires Going(p) && !p.failed && 'r' in p.state.steps
    ensures var q := StepAttest(p, DEPLOY, answers);
            Going(q) && (!q.failed ==> 'R' in q.state.steps && q.attestId == q.state.attestId)
  {
    StepsOfPrefix(p.state.steps);
    if 'R' !in p.state.steps && answers.request.Some? {
      var id := answers.request.value;
      var state := p.state.(steps := p.state.steps + "R", attestId := id);
      var deeds := p.deeds + [Attested(id)];
      OneMoreDeed(p.deeds, Attested(id));
      StepsOfPrefix(state.steps);
      if p.file.Holds? {
        StepsOfPrefix(p.file.saved.steps);
        assert |p.file.saved.steps| <= |p.state.steps| == 1;
      }
      assert Truthful(state, deeds);
      SaveKeepsFile(p.file, answers.saveR, state, deeds);
    }
  }

  lemma CheckKeepsGoing(p: Progress, answers: Answers)
    requires Going(p) && !p.failed && 'R' in p.state.steps && p.attestId == p.state.attestId
    ensures var q := StepCheck(p, DEPLOY, answers);
            Going(q) && (!q.failed ==> 'a' in q.state.steps)
  {
    StepsOfPrefix(p.state.steps);
    if 'a' !in p.state.steps && answers.policyConsistent && answers.check.Some? {
      var id := answers.check.value;
      var state := p.state.(steps := p.state.steps + "a", checkId := id);
      var deeds := p.deeds + [Checked(p.attestId, id)];
      OneMoreDeed(p.deeds, Checked(p.attestId, id));
      StepsOfPrefix(state.steps);
      if p.file.Holds? {
        StepsOfPrefix(p.file.saved.steps);
        assert |p.file.saved.steps| <= |p.state.steps| == 2;
      }
      assert Truthful(state, deeds);
      SaveKeepsFile(p.file, answers.saveA, state, deeds);
    }
  }

  lemma PromoteKeepsGoing(p: Progress, instructionId: Id, answers: Answers)
    requires Going(p) && (!p.failed ==> 'a' in p.state.steps)
    ensures var e := StepPromote(p, DEPLOY, instructionId, answers);
            InOrder(e.deeds) && FileTruthful(e.file, e.deeds) && SuccessPromotes(e)
  {
    if !p.failed {
      var checkId := p.state.checkId;
      OneMoreDeed(p.deeds, Fetched(checkId));
      OneMoreDeed(p.deeds + [Fetched(checkId)], Promoted(checkId));
      assert p.deeds + [Fetched(checkId)] + [Promoted(checkId)] == p.deeds + [Fetched(checkId), Promoted(checkId)];
    }
  }

  lemma {:induction false} AttemptStaysTruthful(f: File, deeds: seq<Deed>, instructionId: Id, answers: Answers)
    requires InOrder(deeds) && FileTruthful(f, deeds)
    ensures var e := Attempt(f, deeds, DEPLOY, instructionId, answers);
            InOrder(e.deeds) && FileTruthful(e.file, e.deeds) && SuccessPromotes(e)
  {
    if answers.loaded && f != Unparsable {
      var p := Progress(f, deeds, if f.Holds? then f.saved else NOTHING, 0, false);
      PreRegisterKeepsGoing(p, answers);
      p := StepPreRegister(p, DEPLOY, answers);
      if !p.failed {
        AttestKeepsGoing(p, answers);
        p := StepAttest(p, DEPLOY, answers);
        if !p.failed {
          CheckKeepsGoing(p, answers);
          p := StepCheck(p, DEPLOY, answers);
        }
      }
      PromoteKeepsGoing(p, instructionId, answers);
    }
  }

  /** Any number of attempts, each resumed from what the previous ones left on disk. */
  function Attempts(instructionId: Id, runs: seq<Answers>): End {
    if runs == [] then End(Missing, [], false)
    else
      var soFar := Attempts(instructionId, runs[..|runs| - 1]);
      Attempt(soFar.file, soFar.deeds, DEPLOY, instructionId, runs[|runs| - 1])
  }

  /** Main result. However many attempts are made, wherever each stops and whichever saves fail or
      tear the file: the saved steps are a prefix of rRa, every availability check was requested with
      the id of the latest attestation request, and everything fetched or promoted is the latest check. */
  lemma {:induction false} ResumptionIsFaithful(instructionId: Id, runs: seq<Answers>)
    ensures var e := Attempts(instructionId, runs);
            InOrder(e.deeds) && FileTruthful(e.file, e.deeds) && SuccessPromotes(e)
  {
    if runs == [] {
    } else {
      var n := |runs| - 1;
      ResumptionIsFaithful(instructionId, runs[..n]);
      var soFar := Attempts(instructionId, runs[..n]);
      AttemptStaysTruthful(soFar.file, soFar.deeds, instructionId, runs[n]);
    }
  }

  // ---------------------------------------------------------------- what saving buys

  function StepOf(d: Deed): char {
    match d
    case PreRegistered(_) => 'r'
    case AttestedAgain(_) => 'r'
    case Attested(_) => 'R'
    case Checked(_, _) => 'a'
    case Fetched(_) => 'p'
    case Promoted(_) => 'p'
  }

  /** How often step `c` was done. */
  function Times(deeds: seq<Deed>, c: char): nat {
    if deeds == [] then 0
    else Times(deeds[..|deeds| - 1], c) + (if StepOf(deeds[|deeds| - 1]) == c then 1 else 0)
  }

  lemma TimesOneMore(deeds: seq<Deed>, d: Deed, c: char)
    ensures Times(deeds + [d], c) == Times(deeds, c) + (if StepOf(d) == c then 1 else 0)
  {
    assert (deeds + [d])[..|deeds|] == deeds;
  }

  predicate IsSaved(c: char) { c == 'r' || c == 'R' || c == 'a' }

  /** Each of the steps r, R and a was done exactly once if recorded, and not at all otherwise. */
  ghost predicate Tally(steps: string, deeds: seq<Deed>) {
    forall c: char :: IsSaved(c) ==> Times(deeds, c) == if c in steps then 1 else 0
  }

  lemma TallyOneMore(steps: string, deeds: seq<Deed>, d: Deed)
    requires Tally(steps, deeds) && StepOf(d) !in steps
    ensures Tally(if IsSaved(StepOf(d)) then steps + [StepOf(d)] else steps, deeds + [d])
  {
    forall c: char | IsSaved(c)
      ensures Times(deeds + [d], c) == if c in (if IsSaved(StepOf(d)) then steps + [StepOf(d)] else steps) then 1 else 0
    {
      TimesOneMore(deeds, d, c);
    }
  }

  function RecordOf(f: File): Saved { if f.Holds? then f.saved else NOTHING }

  ghost predicate OnRecord(p: Progress) {
    p.file != Unparsable && RecordOf(p.file) == p.state && Tally(p.state.steps, p.deeds)
  }

  predicate SavesWork(answers: Answers) {
    answers.savePre.Written? && answers.saveR.Written? && answers.saveA.Written?
  }

  lemma PreRegisterStaysOnRecord(p: Progress, command: string, answers: Answers)
    requires OnRecord(p) && SavesWork(answers)
    ensures OnRecord(StepPreRegister(p, command, answers))
  {
    var got := if answers.registered then answers.attest else answers.preRegister;
    if got.Some? && 'r' !in p.state.steps {
      TallyOneMore(p.state.steps, p.deeds,
          if answers.registered then AttestedAgain(got.value) else PreRegistered(got.value));
    }
  }

  lemma AttestStaysOnRecord(p: Progress, command: string, answers: Answers)
    requires OnRecord(p) && SavesWork(answers)
    ensures OnRecord(StepAttest(p, command, answers))
  {
    if answers.request.Some? && 'R' !in p.state.steps {
      TallyOneMore(p.state.steps, p.deeds, Attested(answers.request.value));
    }
  }

  lemma CheckStaysOnRecord(p: Progress, command: string, answers: Answers)
    requires OnRecord(p) && SavesWork(answers)
    ensures OnRecord(StepCheck(p, command, answers))
  {
    if answers.check.Some? && 'a' !in p.state.steps {
      TallyOneMore(p.state.steps, p.deeds, Checked(p.attestId, answers.check.value));
    }
  }

  lemma {:induction false} PromotionStaysOnRecord(p: Progress, command: string, instructionId: Id, answers: Answers)
    requires OnRecord(p)
    ensures var e := StepPromote(p, command, instructionId, answers);
            && Tally(p.state.steps, e.deeds) && (!e.ok ==> e.file == p.file)
  {
    var checkId := if 'a' in command then p.state.checkId else instructionId;
    forall c: char | IsSaved(c)
      ensures Times(p.deeds + [Fetched(checkId)], c) == Times(p.deeds, c)
      ensures Times(p.deeds + [Fetched(checkId), Promoted(checkId)], c) == Times(p.deeds, c)
    {
      TimesOneMore(p.deeds, Fetched(checkId), c);
      TimesOneMore(p.deeds + [Fetched(checkId)], Promoted(checkId), c);
      assert p.deeds + [Fetched(checkId)] + [Promoted(checkId)] == p.deeds + [Fetched(checkId), Promoted(checkId)];
    }
  }

  lemma AttemptStaysOnRecord(f: File, deeds: seq<Deed>, command: string, instructionId: Id, answers: Answers)
    requires f != Unparsable && Tally(RecordOf(f).steps, deeds) && SavesWork(answers)
    ensures var e := Attempt(f, deeds, command, instructionId, answers);
            && (forall c: char :: IsSaved(c) ==> Times(e.deeds, c) <= 1)
            && (!e.ok ==> e.file != Unparsable && Tally(RecordOf(e.file).steps, e.deeds))
  {
    if answers.loaded {
      var p := Progress(f, deeds, RecordOf(f), 0, false);
      PreRegisterStaysOnRecord(p, command, answers);
      p := StepPreRegister(p, command, answers);
      AttestStaysOnRecord(p, command, answers);
      p := StepAttest(p, command, answers);
      CheckStaysOnRecord(p, command, answers);
      p := StepCheck(p, command, answers);
      PromotionStaysOnRecord(p, command, instructionId, answers);
    }
  }

  /** Main result, the other half: while saves work, no step is ever repeated, however many failed
      attempts the one that succeeds resumes from. */
  lemma {:induction false} NothingIsRepeated(instructionId: Id, runs: seq<Answers>)
    requires forall k :: 0 <= k < |runs| ==> SavesWork(runs[k])
    requires forall k: nat :: k < |runs| ==> !Attempts(instructionId, runs[..k]).ok
    ensures var e := Attempts(instructionId, runs);
            && (forall c: char :: IsSaved(c) ==> Times(e.deeds, c) <= 1)
            && (!e.ok ==> e.file != Unparsable && Tally(RecordOf(e.file).steps, e.deeds))
  {
    if runs == [] {
    } else {
      var n := |runs| - 1;
      forall k: nat | k < n ensures !Attempts(instructionId, runs[..n][..k]).ok {
        assert runs[..n][..k] == runs[..k];
      }
      NothingIsRepeated(instructionId, runs[..n]);
      var soFar := Attempts(instructionId, runs[..n]);
      AttemptStaysOnRecord(soFar.file, soFar.deeds, DEPLOY, instructionId, runs[n]);
    }
  }

  // ---------------------------------------------------------------- one attempt, as a plan

  /** A step still to be done: what it would leave behind, and whether the outside lets it succeed. */
  datatype Task = Task(deed: Deed, good: bool)

  function IdOf(answer: Option<Id>): Id { if answer.Some? then answer.value else 0 }

  /** Step r: a machine not yet on chain is pre-registered, one already there is attested again. */
  function FirstTask(answers: Answers): Task {
    if answers.registered then Task(AttestedAgain(IdOf(answers.attest)), answers.attest.Some?)
    else Task(PreRegistered(IdOf(answers.preRegister)), answers.preRegister.Some?)
  }

  predicate Due(step: char, command: string, done: Saved) { step in command && step !in done.steps }

  /** The attestation on record once step r is behind. */
  function AfterFirst(command: string, done: Saved, answers: Answers): Id {
    if !Due('r', command, done) then done.attestId
    else if answers.registered then IdOf(answers.attest) else IdOf(answers.preRegister)
  }

  /** The attestation the availability check names: the latest of this command's r and R, else none. */
  function Named(command: string, done: Saved, answers: Answers): Id {
    if Due('R', command, done) then IdOf(answers.request)
    else if 'R' in command || 'r' in command then AfterFirst(command, done, answers)
    else 0
  }

  /** The check that is fetched and promoted. */
  function Promotable(command: string, done: Saved, instructionId: Id, answers: Answers): Id {
    if Due('a', command, done) then IdOf(answers.check)
    else if 'a' in command then done.checkId
    else instructionId
  }

  function TasksOfFirst(command: string, done: Saved, answers: Answers): seq<Task> {
    if Due('r', command, done) then [FirstTask(answers)] else []
  }

  function TasksOfSecond(command: string, done: Saved, answers: Answers): seq<Task> {
    if Due('R', command, done) then [Task(Attested(IdOf(answers.request)), answers.request.Some?)] else []
  }

  function TasksOfThird(command: string, done: Saved, named: Id, answers: Answers): seq<Task> {
    if Due('a', command, done)
    then [Task(Checked(named, IdOf(answers.check)), answers.policyConsistent && answers.check.Some?)] else []
  }

  function TasksOfFourth(command: string, id: Id, answers: Answers): seq<Task> {
    if 'p' in command then [Task(Fetched(id), answers.proof), Task(Promoted(id), answers.promoted)] else []
  }

  function Plan(command: string, done: Saved, instructionId: Id, answers: Answers): seq<Task> {
    TasksOfFirst(command, done, answers)
    + (TasksOfSecond(command, done, answers)
       + (TasksOfThird(command, done, Named(command, done, answers), answers)
          + TasksOfFourth(command, Promotable(command, done, instructionId, answers), answers)))
  }

  /** What gets done: the tasks in order, up to the first that fails. */
  function Done(tasks: seq<Task>): seq<Deed> {
    if tasks == [] || !tasks[0].good then [] else [tasks[0].deed] + Done(tasks[1..])
  }

  predicate AllGood(tasks: seq<Task>) { forall t :: t in tasks ==> t.good }

  lemma DoneAfterOne(t: Task, later: seq<Task>)
    ensures Done([t] + later) == if t.good then [t.deed] + Done(later) else []
    ensures AllGood([t] + later) <==> t.good && AllGood(later)
  {
    assert ([t] + later)[1..] == later;
    assert forall u :: u in [t] + later <==> u == t || u in later;
  }

  lemma DoneOfNone(later: seq<Task>)
    ensures [] + later == later && Done([]) == [] && AllGood([])
  {
  }

  predicate StepsOneMore(steps: string, steps1: string, c: char, added: bool) {
    forall d: char :: d in steps1 <==> d in steps || (d == c && added)
  }

  lemma FirstStep(p: Progress, command: string, answers: Answers)
    requires !p.failed
    ensures var q := StepPreRegister(p, command, answers);
            var t := FirstTask(answers);
            if !Due('r', command, p.state) then
              q == p.(attestId := if 'r' in command then p.state.attestId else p.attestId)
            else if !t.good then q.failed && q.deeds == p.deeds
            else
              && !q.failed && q.deeds == p.deeds + [t.deed]
              && q.attestId == q.state.attestId == AfterFirst(command, p.state, answers)
              && q.state.checkId == p.state.checkId && StepsOneMore(p.state.steps, q.state.steps, 'r', true)
  {
  }

  lemma SecondStep(p: Progress, command: string, answers: Answers)
    requires !p.failed
    ensures var q := StepAttest(p, command, answers);
            if !Due('R', command, p.state) then
              q == p.(attestId := if 'R' in command then p.state.attestId else p.attestId)
            else if answers.request.None? then q.failed && q.deeds == p.deeds
            else
              && !q.failed && q.deeds == p.deeds + [Attested(answers.request.value)]
              && q.attestId == q.state.attestId == answers.request.value
              && q.state.checkId == p.state.checkId && StepsOneMore(p.state.steps, q.state.steps, 'R', true)
  {
  }

  lemma ThirdStep(p: Progress, command: string, answers: Answers)
    requires !p.failed
    ensures var q := StepCheck(p, command, answers);
            if !Due('a', command, p.state) then q == p
            else if !answers.policyConsistent || answers.check.None? then q.failed && q.deeds == p.deeds
            else
              && !q.failed && q.deeds == p.deeds + [Checked(p.attestId, answers.check.value)]
              && q.state.checkId == answers.check.value && StepsOneMore(p.state.steps, q.state.steps, 'a', true)
  {
  }

  /** A failed step ends the attempt. */
  lemma FailureEnds(p: Progress, command: string, instructionId: Id, answers: Answers)
    requires p.failed
    ensures StepAttest(p, command, answers) == p && StepCheck(p, command, answers) == p
    ensures StepPromote(p, command, instructionId, answers) == End(p.file, p.deeds, false)
  {
  }

  /** `e` is where `p` gets to by these tasks. */
  ghost predicate EndsBy(p: Progress, e: End, tasks: seq<Task>) {
    e.deeds == p.deeds + Done(tasks) && e.ok == AllGood(tasks)
  }

  lemma FromFourth(p: Progress, command: string, instructionId: Id, answers: Answers)
    requires !p.failed
    ensures var id := if 'a' in command then p.state.checkId else instructionId;
            EndsBy(p, StepPromote(p, command, instructionId, answers), TasksOfFourth(command, id, answers))
  {
    var id := if 'a' in command then p.state.checkId else instructionId;
    var fetch, promote := Task(Fetched(id), answers.proof), Task(Promoted(id), answers.promoted);
    DoneAfterOne(fetch, [promote]);
    DoneAfterOne(promote, []);
    assert [fetch] + [promote] == [fetch, promote] && [promote] + [] == [promote];
  }

  lemma FromThird(p: Progress, command: string, instructionId: Id, answers: Answers)
    requires !p.failed
    ensures var id := Promotable(command, p.state, instructionId, answers);
            EndsBy(p, StepPromote(StepCheck(p, command, answers), command, instructionId, answers),
                   TasksOfThird(command, p.state, p.attestId, answers) + TasksOfFourth(command, id, answers))
  {
    ThirdStep(p, command, answers);
    var q := StepCheck(p, command, answers);
    var later := TasksOfFourth(command, Promotable(command, p.state, instructionId, answers), answers);
    DoneAfterOne(Task(Checked(p.attestId, IdOf(answers.check)), answers.policyConsistent && answers.check.Some?),
        later);
    DoneOfNone(later);
    if q.failed {
      FailureEnds(q, command, instructionId, answers);
    } else {
      FromFourth(q, command, instructionId, answers);
    }
  }

  function NamedIn(command: string, p: Progress, answers: Answers): Id {
    if Due('R', command, p.state) then IdOf(answers.request)
    else if 'R' in command then p.state.attestId else p.attestId
  }

  /** The tasks from step a on, and from step R on. */
  function FromA(command: string, done: Saved, named: Id, instructionId: Id, answers: Answers): seq<Task> {
    TasksOfThird(command, done, named, answers)
    + TasksOfFourth(command, Promotable(command, done, instructionId, answers), answers)
  }

  function FromR(command: string, done: Saved, named: Id, instructionId: Id, answers: Answers): seq<Task> {
    TasksOfSecond(command, done, answers) + FromA(command, done, named, instructionId, answers)
  }

  /** Steps done before a do not change what remains from a on, nor step r what remains from R on. */
  lemma EarlierStepChangesNothing(command: string, s: Saved, t: Saved, c: char, named: Id, instructionId: Id,
                                  answers: Answers)
    requires StepsOneMore(s.steps, t.steps, c, true) && s.checkId == t.checkId
    ensures c != 'a' ==>
              FromA(command, s, named, instructionId, answers) == FromA(command, t, named, instructionId, answers)
    ensures c != 'R' ==> TasksOfSecond(command, s, answers) == TasksOfSecond(command, t, answers)
  {
  }

  function EndFromR(p: Progress, command: string, instructionId: Id, answers: Answers): End {
    StepPromote(StepCheck(StepAttest(p, command, answers), command, answers), command, instructionId, answers)
  }

  lemma EndsAfterOne(p: Progress, q: Progress, e: End, t: Task, later: seq<Task>)
    requires t.good && q.deeds == p.deeds + [t.deed] && EndsBy(q, e, later)
    ensures EndsBy(p, e, [t] + later)
  {
    DoneAfterOne(t, later);
    assert p.deeds + [t.deed] + Done(later) == p.deeds + ([t.deed] + Done(later));
  }

  lemma EndsAtOnce(p: Progress, e: End, t: Task, later: seq<Task>)
    requires !t.good && e.deeds == p.deeds && !e.ok
    ensures EndsBy(p, e, [t] + later)
  {
    DoneAfterOne(t, later);
  }

  lemma FromSecond(p: Progress, command: string, instructionId: Id, answers: Answers)
    requires !p.failed
    ensures EndsBy(p, EndFromR(p, command, instructionId, answers),
                   FromR(command, p.state, NamedIn(command, p, answers), instructionId, answers))
  {
    SecondStep(p, command, answers);
    var q, e := StepAttest(p, command, answers), EndFromR(p, command, instructionId, answers);
    var named := NamedIn(command, p, answers);
    var t, later := Task(Attested(IdOf(answers.request)), answers.request.Some?),
        FromA(command, p.state, named, instructionId, answers);
    if !Due('R', command, p.state) {
      DoneOfNone(later);
      FromThird(q, command, instructionId, answers);
    } else if q.failed {
      FailureEnds(q, command, instructionId, answers);
      EndsAtOnce(p, e, t, later);
    } else {
      EarlierStepChangesNothing(command, p.state, q.state, 'R', named, instructionId, answers);
      FromThird(q, command, instructionId, answers);
      EndsAfterOne(p, q, e, t, later);
    }
  }

  /** Step r makes the attestation it got the one that is named, unless step R gets a newer one. */
  lemma FirstNamed(p: Progress, command: string, instructionId: Id, answers: Answers)
    requires !p.failed && p.attestId == 0 && !StepPreRegister(p, command, answers).failed
    ensures var q := StepPreRegister(p, command, answers);
            && NamedIn(command, q, answers) == Named(command, p.state, answers)
            && FromR(command, q.state, NamedIn(command, q, answers), instructionId, answers)
               == FromR(command, p.state, Named(command, p.state, answers), instructionId, answers)
  {
    FirstStep(p, command, answers);
    var q := StepPreRegister(p, command, answers);
    if Due('r', command, p.state) {
      EarlierStepChangesNothing(command, p.state, q.state, 'r', Named(command, p.state, answers), instructionId,
          answers);
    }
  }

  lemma PlanFromR(command: string, done: Saved, instructionId: Id, answers: Answers)
    ensures Plan(command, done, instructionId, answers)
         == TasksOfFirst(command, done, answers)
            + FromR(command, done, Named(command, done, answers), instructionId, answers)
  {
  }

  lemma FromFirst(p: Progress, command: string, instructionId: Id, answers: Answers)
    requires !p.failed && p.attestId == 0
    ensures EndsBy(p, EndFromR(StepPreRegister(p, command, answers), command, instructionId, answers),
                   TasksOfFirst(command, p.state, answers)
                   + FromR(command, p.state, Named(command, p.state, answers), instructionId, answers))
  {
    FirstStep(p, command, answers);
    var q := StepPreRegister(p, command, answers);
    var later := FromR(command, p.state, Named(command, p.state, answers), instructionId, answers);
    var e := EndFromR(q, command, instructionId, answers);
    if q.failed {
      FailureEnds(q, command, instructionId, answers);
      EndsAtOnce(p, e, FirstTask(answers), later);
    } else {
      FirstNamed(p, command, instructionId, answers);
      FromSecond(q, command, instructionId, answers);
      if Due('r', command, p.state) {
        EndsAfterOne(p, q, e, FirstTask(answers), later);
      } else {
        DoneOfNone(later);
      }
    }
  }

  /** Main result on one attempt, for every command and every saved record: it does exactly the steps the
      command asks for that are not on record, in the order r, R, a, p, with the ids the outside gave,
      until one fails, and it reports success exactly if none does. */
  lemma {:induction false} AttemptDoesItsPlan(f: File, deeds: seq<Deed>, command: string, instructionId: Id,
                                              answers: Answers)
    requires answers.loaded && f != Unparsable
    ensures var tasks := Plan(command, RecordOf(f), instructionId, answers);
            var e := Attempt(f, deeds, command, instructionId, answers);
            e.deeds == deeds + Done(tasks) && e.ok == AllGood(tasks)
  {
    FromFirst(Progress(f, deeds, RecordOf(f), 0, false), command, instructionId, answers);
    PlanFromR(command, RecordOf(f), instructionId, answers);
  }

  /** The file is removed by a success only; a file that cannot be read or parsed stops the attempt. */
  lemma RemovalNeedsSuccess(f: File, deeds: seq<Deed>, command: string, instructionId: Id, answers: Answers)
    ensures var e := Attempt(f, deeds, command, instructionId, answers);
            && (e.ok && answers.removed ==> e.file == Missing)
            && (!e.ok && f != Missing ==> e.file != Missing)
            && (!answers.loaded || f == Unparsable ==> e == End(f, deeds, false))
  {
  }

  lemma DeployPlan(instructionId: Id, answers: Answers)
    requires !answers.registered && answers.preRegister.Some? && answers.request.Some? && answers.check.Some?
    ensures var check := answers.check.value;
            Plan(DEPLOY, NOTHING, instructionId, answers)
            == [Task(PreRegistered(answers.preRegister.value), true)] + ([Task(Attested(answers.request.value), true)]
               + ([Task(Checked(answers.request.value, check), answers.policyConsistent)]
                  + [Task(Fetched(check), answers.proof), Task(Promoted(check), answers.promoted)]))
  {
  }

  lemma DoneOfFive(t: Task, u: Task, v: Task, x: Task, y: Task)
    requires t.good && u.good && v.good && x.good && y.good
    ensures Done([t] + ([u] + ([v] + [x, y]))) == [t.deed, u.deed, v.deed, x.deed, y.deed]
    ensures AllGood([t] + ([u] + ([v] + [x, y])))
  {
    assert [x, y] == [x] + ([y] + []);
    DoneAfterOne(t, [u] + ([v] + [x, y]));
    DoneAfterOne(u, [v] + [x, y]);
    DoneAfterOne(v, [x, y]);
    DoneAfterOne(x, [y] + []);
    DoneAfterOne(y, []);
  }

  /** In particular, undisturbed from the start, a new machine is pre-registered, attested, checked with
      that attestation, fetched and promoted with that check. */
  lemma {:induction false} UndisturbedFromTheStart(instructionId: Id, answers: Answers)
    requires answers.loaded && !answers.registered && answers.preRegister.Some? && answers.request.Some?
    requires answers.policyConsistent && answers.check.Some? && answers.proof && answers.promoted
    ensures var check := answers.check.value;
            var e := Attempt(Missing, [], DEPLOY, instructionId, answers);
            e.ok && e.deeds == [PreRegistered(answers.preRegister.value), Attested(answers.request.value),
                                Checked(answers.request.value, check), Fetched(check), Promoted(check)]
  {
    var check := answers.check.value;
    AttemptDoesItsPlan(Missing, [], DEPLOY, instructionId, answers);
    DeployPlan(instructionId, answers);
    DoneOfFive(Task(PreRegistered(answers.preRegister.value), true), Task(Attested(answers.request.value), true),
               Task(Checked(answers.request.value, check), true), Task(Fetched(check), true),
               Task(Promoted(check), true));
  }

  /** And a signing policy out of step stops it before the check is requested. */
  lemma {:induction false} PolicyStopsBeforeTheCheck(instructionId: Id, answers: Answers)
    requires answers.loaded && !answers.registered && answers.preRegister.Some? && answers.request.Some?
    requires !answers.policyConsistent && answers.check.Some?
    ensures var e := Attempt(Missing, [], DEPLOY, instructionId, answers);
            !e.ok && e.deeds == [PreRegistered(answers.preRegister.value), Attested(answers.request.value)]
  {
    var check := answers.check.value;
    var r, R := Task(PreRegistered(answers.preRegister.value), true), Task(Attested(answers.request.value), true);
    var a := Task(Checked(answers.request.value, check), false);
    var last := [Task(Fetched(check), answers.proof), Task(Promoted(check), answers.promoted)];
    AttemptDoesItsPlan(Missing, [], DEPLOY, instructionId, answers);
    DeployPlan(instructionId, answers);
    DoneAfterOne(r, [R] + ([a] + last));
    DoneAfterOne(R, [a] + last);
    DoneAfterOne(a, last);
  }
}
