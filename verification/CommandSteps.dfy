/** The commands as written are the steps of a run: in every directory a run reaches they may be called, and what they
    leave on disk, whenever the process dies, is what the step leaves. So what is proved of runs is proved of them. */
module CommandSteps {
  import opened LedgerLaws
  import opened Campaigns
  import opened CampaignInvariant
  import opened CampaignRuns
  import opened CampaignCommands

  /** No command asks more of the directory than every reached one gives. */
  lemma InvIsUsable(w: World)
    requires Inv(w)
    ensures Usable(w.disk)
  {
    LawfulReasons(w.disk.ledger);
  }

  /** Whatever a command that lives for n writes does to the disk, the step does. */
  lemma CommandIsStep(w: World, c: Command, n: nat, d1: Disk, w1: nat, ok: bool)
    requires Executed(w.disk, n, CommandRun(w.disk, c), d1, w1, ok)
    ensures d1 == Perform(w, Execute(c, n)).disk
    ensures ok ==> CommandRun(w.disk, c).ok && Perform(w, Execute(c, n)) == DoAll(w, CommandRun(w.disk, c).effects)
  {
    DoAllDisk(w, Written(w.disk, c, n));
    var effects := CommandRun(w.disk, c).effects;
    assert effects[..|effects|] == effects;
  }

  /** In the directory that any steps reach, any command may be called, lives for as many writes as it is given, and
      leaves the directory that the steps with its own added reach. */
  method RunNext(campaign: Campaign, ghost steps: seq<Step>, c: Command) returns (ok: bool)
    requires campaign.disk == Reached(steps).disk
    modifies campaign
    ensures campaign.disk == Reached(steps + [Execute(c, old(campaign.writes))]).disk
    ensures Inv(Reached(steps + [Execute(c, old(campaign.writes))]))
    ensures ok ==> CommandRun(old(campaign.disk), c).ok
  {
    ghost var w, n := Reached(steps), campaign.writes;
    ReachedKeepsInv(steps);
    InvIsUsable(w);
    ok := campaign.Perform(c);
    CommandIsStep(w, c, n, campaign.disk, campaign.writes, ok);
    ReachedNext(steps, Execute(c, n));
    ReachedKeepsInv(steps + [Execute(c, n)]);
  }

  lemma ReachedNext(steps: seq<Step>, step: Step)
    ensures Reached(steps + [step]) == Perform(Reached(steps), step)
  {
    ContinuedConcat(START, steps, [step]);
    assert [step][1..] == [];
  }
}
