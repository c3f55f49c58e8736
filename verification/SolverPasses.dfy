/** What the solver starts from and what its passes pick, control by control. */
module SolverPasses {
  import opened Basics
  import opened Actuator
  import opened MotionLimits

  // seed - reference is 0.7 of shifted - reference.
  predicate LeansOn(shifted: real, reference: real, seed: real) {
    seed - reference == 0.7 * (shifted - reference)
  }

  // A warm start keeps seven tenths of what the previous solution wanted one step
  // on, its first control following its last; a cold one is the reference.
  lemma SeedLeansOnThePreviousSolution(config: Config, warm: Option<seq<Control>>, references: seq<Control>, step: nat)
    requires step < config.horizon <= |references|
    ensures warm.None? ==> Seed(config, warm, references, step) == references[step]
    ensures warm.Some? && |warm.value| == config.horizon ==>
              var next := warm.value[(step + 1) % config.horizon];
              var seed := Seed(config, warm, references, step);
              && LeansOn(next.vx, references[step].vx, seed.vx) && LeansOn(next.vy, references[step].vy, seed.vy)
              && LeansOn(next.wz, references[step].wz, seed.wz)
    ensures warm.Some? && |warm.value| != config.horizon ==>
              var seed := Seed(config, warm, references, step);
              && LeansOn(0.0, references[step].vx, seed.vx) && LeansOn(0.0, references[step].vy, seed.vy)
              && LeansOn(0.0, references[step].wz, seed.wz)
  {
    if warm.Some? && |warm.value| == config.horizon {
      assert (step + 1) % config.horizon == if step + 1 < config.horizon then step + 1 else 0;
    }
  }

  lemma {:induction false} SeedsAt(config: Config, warm: Option<seq<Control>>, references: seq<Control>, n: nat, i: nat)
    requires i < n <= config.horizon <= |references|
    ensures Seeds(config, warm, references, n)[i] == Seed(config, warm, references, i)
  {
    if i < n - 1 {
      SeedsAt(config, warm, references, n - 1, i);
    }
  }

  // A candidate asks for each control plus its own update.
  lemma {:induction false} SumsAt(controls: seq<Control>, updates: seq<Control>, i: nat)
    requires i < |controls| == |updates|
    ensures var sum := Sums(controls, updates)[i];
            && sum.vx - controls[i].vx == updates[i].vx && sum.vy - controls[i].vy == updates[i].vy
            && sum.wz - controls[i].wz == updates[i].wz
  {
    if i < |controls| - 1 {
      SumsAt(controls[..|controls| - 1], updates[..|updates| - 1], i);
    }
  }

  predicate IsFirstCheaper(trials: seq<Trial>, j: nat) {
    j < |trials| && trials[j].cheaper && forall i | 0 <= i < j :: !trials[i].cheaper
  }

  // Each control is as near as the modules come, after the one before, to the old
  // control plus its update.
  ghost predicate IsCandidate(config: Config, controls: seq<Control>, updates: seq<Control>, last: Control,
                              taken: seq<Control>)
    requires config.Valid()
  {
    && |taken| == |controls| == |updates|
    && forall i | 0 <= i < |taken| ::
         taken[i] == ClampIncrement(config, Add(controls[i], updates[i]), Before(taken, last, i))
  }

  lemma ProjectionIsACandidate(config: Config, controls: seq<Control>, updates: seq<Control>, last: Control)
    requires config.Valid() && |controls| == |updates|
    ensures IsCandidate(config, controls, updates, last, ProjectAll(config, Sums(controls, updates), last))
  {
    hide ClampIncrement, Config.Valid, ProjectAll, Sums;
    var sums := Sums(controls, updates);
    var taken := ProjectAll(config, sums, last);
    forall i | 0 <= i < |taken|
      ensures taken[i] == ClampIncrement(config, Add(controls[i], updates[i]), Before(taken, last, i))
    {
      SumsAt(controls, updates, i);
      ProjectedAt(config, sums, last, i);
    }
  }

  // The line search takes the first cheaper candidate, and none when none is cheaper.
  lemma {:induction false} SearchTakesTheFirstCheaper(config: Config, controls: seq<Control>, trials: seq<Trial>,
                                                      last: Control)
    requires config.Valid() && forall i | 0 <= i < |trials| :: |trials[i].updates| == |controls|
    ensures var taken := Accepted(config, controls, trials, last);
            && (taken.None? <==> forall i | 0 <= i < |trials| :: !trials[i].cheaper)
            && forall j: nat | IsFirstCheaper(trials, j) ::
                 taken.Some? && IsCandidate(config, controls, trials[j].updates, last, taken.value)
  {
    hide Config.Valid, IsCandidate, ProjectAll, Sums;
    if trials != [] {
      if trials[0].cheaper {
        ProjectionIsACandidate(config, controls, trials[0].updates, last);
      } else {
        SearchTakesTheFirstCheaper(config, controls, trials[1..], last);
        assert forall j: nat | IsFirstCheaper(trials, j) :: j > 0 && IsFirstCheaper(trials[1..], j - 1);
      }
    }
  }

  predicate IsLast(iteration: Iteration) {
    !iteration.certified || iteration.converged || forall i | 0 <= i < |iteration.trials| ::
      !iteration.trials[i].cheaper
  }

  // The solver succeeds by its first pass, and its last pass is the first that is
  // not certified, has converged or finds nothing cheaper.
  lemma {:induction false} PassesEndTheDescent(config: Config, controls: seq<Control>, iterations: seq<Iteration>,
                                               last: Control, k: nat)
    requires config.Valid() && forall i | 0 <= i < |iterations| :: Sized(iterations[i], |controls|)
    requires k < |iterations| && IsLast(iterations[k])
    ensures Descend(config, controls, iterations, last).0 <==> iterations[0].certified
    ensures Descend(config, controls, iterations, last) == Descend(config, controls, iterations[..k + 1], last)
    decreases k
  {
    hide Accepted, Config.Valid;
    assert Sized(iterations[0], |controls|);
    SearchTakesTheFirstCheaper(config, controls, iterations[0].trials, last);
    AcceptedSize(config, controls, iterations[0].trials, last);
    var accepted := Accepted(config, controls, iterations[0].trials, last);
    if k > 0 && accepted.Some? && !iterations[0].converged {
      assert iterations[..k + 1][1..] == iterations[1..][..k];
      PassesEndTheDescent(config, accepted.value, iterations[1..], last, k - 1);
    }
  }

  // A pass that ends the search at once leaves the controls as they are, unless
  // it is certified and finds a cheaper candidate, which it then ends with.
  lemma OnePassEndsWith(config: Config, controls: seq<Control>, iteration: Iteration, last: Control, j: nat)
    requires config.Valid() && Sized(iteration, |controls|)
    ensures !iteration.certified || (forall i | 0 <= i < |iteration.trials| :: !iteration.trials[i].cheaper) ==>
              Descend(config, controls, [iteration], last).1 == controls
    ensures iteration.certified && IsFirstCheaper(iteration.trials, j) ==>
              IsCandidate(config, controls, iteration.trials[j].updates, last,
                          Descend(config, controls, [iteration], last).1)
  {
    hide Accepted, Config.Valid, IsCandidate;
    assert Sized([iteration][0], |controls|);
    SearchTakesTheFirstCheaper(config, controls, iteration.trials, last);
  }

  // Any other pass hands its candidate to the passes that follow.
  lemma PassesFollowOn(config: Config, controls: seq<Control>, iterations: seq<Iteration>, last: Control)
    requires config.Valid() && forall i | 0 <= i < |iterations| :: Sized(iterations[i], |controls|)
    requires iterations != [] && !IsLast(iterations[0])
    ensures var taken := Descend(config, controls, iterations[..1], last).1;
            |taken| == |controls| &&
            Descend(config, controls, iterations, last).1 == Descend(config, taken, iterations[1..], last).1
  {
    hide Accepted, Config.Valid;
    assert Sized(iterations[0], |controls|) && iterations[..1][0] == iterations[0];
    SearchTakesTheFirstCheaper(config, controls, iterations[0].trials, last);
    AcceptedSize(config, controls, iterations[0].trials, last);
  }
}
