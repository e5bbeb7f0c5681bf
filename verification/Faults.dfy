/**
 * What the outside world does to App Runner.  Every call that leaves the
 * process (a kernel call, a file write) takes one `Fate` from a script, so a
 * statement about every script is a statement about every combination of
 * failing calls and about a crash of the daemon at every point between two
 * calls: after `Crashes` every further call fails without effect until the
 * daemon is restarted.
 */
module Faults {
  datatype Option<+T> = None | Some(value: T)

  /** `FailsLate` is a call that took effect and still reported a failure. */
  datatype Fate = Works | Fails | FailsLate | Crashes

  function NextFate(fates: seq<Fate>): Fate {
    FateAt(fates, 0)
  }

  /** The call has its effect. */
  predicate Takes(fate: Fate) {
    fate == Works || fate == FailsLate
  }

  /** After the end of a script every call works. */
  function FateAt(fates: seq<Fate>, n: nat): Fate {
    if n < |fates| then fates[n] else Works
  }

  /** What is left of a script after n calls. */
  function Rest(fates: seq<Fate>, n: nat): seq<Fate> {
    if n <= |fates| then fates[n..] else []
  }

  lemma RestOfRest(fates: seq<Fate>, m: nat, n: nat)
    ensures Rest(Rest(fates, m), n) == Rest(fates, m + n)
  {
  }

  lemma FateLater(fates: seq<Fate>, m: nat, n: nat)
    ensures FateAt(Rest(fates, m), n) == FateAt(fates, m + n)
  {
  }

  /** No call fails by itself: each works, or the daemon crashes there. */
  ghost predicate NoLoneFailure(fates: seq<Fate>) {
    forall i :: 0 <= i < |fates| ==> fates[i] == Works || fates[i] == Crashes
  }

  /** What the next calls will meet. */
  datatype Future = Ahead(alive: bool, fates: seq<Fate>) {
    /** The next call is made and succeeds. */
    predicate Succeeds() {
      alive && NextFate(fates) == Works
    }

    /** The next call is made and has its effect. */
    predicate TakesEffect() {
      alive && Takes(NextFate(fates))
    }

    /** After one more call. */
    function Next(): Future {
      Ahead(alive && NextFate(fates) != Crashes, if alive then Rest(fates, 1) else fates)
    }
  }

  class Script {
    var fates: seq<Fate>
    var alive: bool

    constructor (fates: seq<Fate>)
      ensures alive && this.fates == fates
    {
      this.fates := fates;
      alive := true;
    }

    /** Every further call works. */
    ghost predicate Calm()
      reads this
    {
      alive && fates == []
    }

    ghost predicate CrashOnly()
      reads this
    {
      NoLoneFailure(fates)
    }

    /** At most one call fails, the last of the script. */
    ghost predicate Lone()
      reads this
    {
      && alive && (forall i :: 0 <= i < |fates| - 1 ==> fates[i] == Works)
      && (fates != [] ==> fates[|fates| - 1] != Crashes)
    }

    /** After a success the one failure is still to come; after it every call works. */
    twostate predicate Once(ok: bool)
      reads this
    {
      old(Lone()) ==> if ok then Lone() else Calm()
    }

    /** What an operation did when every call of it works, and when the daemon survived it without a failing call. */
    twostate predicate Smooth(done: bool)
      reads this
    {
      && (old(Calm()) ==> Calm()) && (alive ==> old(alive))
      && (old(CrashOnly()) ==> CrashOnly() && (alive ==> done))
    }

    ghost function Future(): Future
      reads this
    {
      Ahead(alive, fates)
    }

    ghost predicate Succeeding()
      reads this
    {
      Future().Succeeds()
    }

    ghost predicate Taking()
      reads this
    {
      Future().TakesEffect()
    }

    /** One call was made. */
    twostate predicate Advanced()
      reads this
    {
      Future() == old(Future()).Next()
    }

    /** One call: `took` says it had its effect, `ok` that it reported success. */
    method Attempt() returns (took: bool, ok: bool)
      modifies this
      ensures ok == old(Succeeding()) && took == old(Taking()) && Advanced()
      ensures Smooth(took && ok) && Once(ok)
    {
      if !alive {
        return false, false;
      }
      var fate := NextFate(fates);
      fates := Rest(fates, 1);
      alive := fate != Crashes;
      took := Takes(fate);
      ok := fate == Works;
    }

    /** The daemon is started again; the host kept its state. */
    method Restart()
      modifies this
      ensures alive && fates == old(fates)
    {
      alive := true;
    }
  }
}
