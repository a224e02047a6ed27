/** The privileged-helper policy and the pipelines that need it
    (`_ensure_polkit_policy`, the run-mode part of
    `_open_terminal_and_run_pipeline`): before the first root pipeline that
    goes through pkexec, the wrapper program and its polkit policy are
    compared with their intended contents and reinstalled by a root pipeline
    when they differ; a flag keeps a second request from starting a second
    install while one is under way. */
module Policy {
  import opened Wrappers
  import Script

  /** A pipeline handed to a terminal, with the way it reaches root and
      whether it is the policy install itself. */
  datatype Launched = Launched(script: string, root: Script.RootPrimitive, policyInstall: bool)

  /** No policy install in `log` goes through the wrapper it installs. */
  predicate BootstrapsWithoutWrapper(log: seq<Launched>)
  {
    forall i :: 0 <= i < |log| && log[i].policyInstall ==> !log[i].root.PkexecWrapper?
  }

  /** Launching a pipeline that is not a policy install through the wrapper
      keeps a log free of such installs. */
  lemma AppendKeepsBootstrap(log: seq<Launched>, e: Launched)
    requires BootstrapsWithoutWrapper(log)
    ensures BootstrapsWithoutWrapper(log + [e]) <==> !(e.policyInstall && e.root.PkexecWrapper?)
  {
    assert (log + [e])[|log|] == e;
  }

  class RootRunner {
    /** Set while the policy install is being decided (`_policy_installing`). */
    var installing: bool
    /** The wrapper and the policy file on disk (`None` when absent), and
        whether the wrapper is executable. */
    var wrapperOnDisk: Option<string>
    var policyOnDisk: Option<string>
    var wrapperExecutable: bool
    /** The pipelines handed to a terminal so far, oldest first. */
    var launched: seq<Launched>

    /** The session: effective user id, whether pkexec is on `PATH`, the
        value of `SUDO_ASKPASS` ("" when unset), and the intended wrapper,
        policy and install script. */
    const euid: nat
    const pkexecOnPath: bool
    const askpass: string
    const wrapper: string
    const policy: string
    const installScript: string

    /** `__init__`: nothing installing, nothing launched yet. */
    constructor(euid: nat, pkexecOnPath: bool, askpass: string, wrapper: string, policy: string, installScript: string,
                wrapperOnDisk: Option<string>, policyOnDisk: Option<string>, wrapperExecutable: bool)
      ensures this.euid == euid && this.pkexecOnPath == pkexecOnPath && this.askpass == askpass
      ensures this.wrapper == wrapper && this.policy == policy && this.installScript == installScript
      ensures this.wrapperOnDisk == wrapperOnDisk && this.policyOnDisk == policyOnDisk
      ensures this.wrapperExecutable == wrapperExecutable
      ensures !installing && launched == []
    {
      this.euid := euid;
      this.pkexecOnPath := pkexecOnPath;
      this.askpass := askpass;
      this.wrapper := wrapper;
      this.policy := policy;
      this.installScript := installScript;
      this.wrapperOnDisk := wrapperOnDisk;
      this.policyOnDisk := policyOnDisk;
      this.wrapperExecutable := wrapperExecutable;
      installing := false;
      launched := [];
    }

    /** The check run before installing: the policy file is there, the
        wrapper is there and executable, and both equal their intended
        contents byte for byte. */
    predicate UpToDate()
      reads this
    {
      policyOnDisk.Some? && wrapperOnDisk.Some? && wrapperExecutable
      && wrapperOnDisk.value == wrapper && policyOnDisk.value == policy
    }

    /** How a pipeline with this need for root reaches root. */
    function RootFor(needRoot: bool): Script.RootPrimitive
    {
      Script.RootPrimitiveFor(Script.RunModeFor(needRoot, euid, pkexecOnPath), askpass)
    }

    /** Corrected: the root primitive of the policy install. It cannot be
        the wrapper it is about to install, so outside root it is sudo in
        the terminal. Only the corrected members use it; the install as
        written goes through `RootFor(true)`. */
    function BootstrapRoot(): (p: Script.RootPrimitive)
      ensures !p.PkexecWrapper?
      ensures euid == 0 ==> p == RootFor(true)
      ensures euid != 0 ==> p == Script.RootPrimitiveFor(Script.RunModeFor(true, euid, false), askpass)
    {
      if euid == 0 then Script.DirectRoot else Script.Sudo(Script.SudoFlags(askpass))
    }

    /** `_ensure_polkit_policy`: nothing happens while an install is
        already being decided, or when both files are up to date; otherwise
        the install script is opened like any other root pipeline (without
        a policy check of its own), so under pkexec it runs through the
        wrapper it is about to install. The flag is back to its old value
        afterwards. */
    method EnsurePolicy()
      modifies this
      decreases 1
      ensures installing == old(installing)
      ensures wrapperOnDisk == old(wrapperOnDisk) && policyOnDisk == old(policyOnDisk)
      ensures wrapperExecutable == old(wrapperExecutable)
      ensures old(installing) || old(UpToDate()) ==> launched == old(launched)
      ensures !old(installing) && !old(UpToDate()) ==>
        launched == old(launched) + [Launched(installScript, RootFor(true), true)]
      ensures !old(installing) && !old(UpToDate()) && euid != 0 && pkexecOnPath ==>
        launched[|launched| - 1].root.PkexecWrapper? && !UpToDate()
    {
      if installing {
        return;
      }
      installing := true;
      if !UpToDate() {
        OpenPipeline(installScript, true, false, true);
      }
      installing := false;
    }

    /** The run-mode part of `_open_terminal_and_run_pipeline`: a root
        pipeline that goes through pkexec first makes sure of the policy
        (unless told not to, or an install is already being decided), then
        the pipeline is launched with the root primitive of its mode. */
    method OpenPipeline(script: string, needRoot: bool, ensurePolicy: bool, policyInstall: bool)
      modifies this
      decreases if ensurePolicy then 2 else 0
      ensures installing == old(installing)
      ensures wrapperOnDisk == old(wrapperOnDisk) && policyOnDisk == old(policyOnDisk)
      ensures wrapperExecutable == old(wrapperExecutable)
      ensures needRoot && euid != 0 && pkexecOnPath && ensurePolicy && !old(installing) && !old(UpToDate()) ==>
        launched == old(launched) + [Launched(installScript, RootFor(true), true), Launched(script, RootFor(needRoot), policyInstall)]
      ensures !(needRoot && euid != 0 && pkexecOnPath && ensurePolicy && !old(installing) && !old(UpToDate())) ==>
        launched == old(launched) + [Launched(script, RootFor(needRoot), policyInstall)]
    {
      var entry := Launched(script, RootFor(needRoot), policyInstall);
      if needRoot && euid != 0 && pkexecOnPath && ensurePolicy && !installing {
        EnsurePolicy();
      }
      launched := launched + [entry];
    }

    /** `_ensure_polkit_policy` corrected: the install pipeline is started
        through sudo rather than through the wrapper it installs. */
    method EnsurePolicyCorrected()
      modifies this
      ensures installing == old(installing)
      ensures wrapperOnDisk == old(wrapperOnDisk) && policyOnDisk == old(policyOnDisk)
      ensures wrapperExecutable == old(wrapperExecutable)
      ensures old(installing) || old(UpToDate()) ==> launched == old(launched)
      ensures !old(installing) && !old(UpToDate()) ==>
        launched == old(launched) + [Launched(installScript, BootstrapRoot(), true)]
      ensures BootstrapsWithoutWrapper(old(launched)) ==> BootstrapsWithoutWrapper(launched)
    {
      if installing {
        return;
      }
      installing := true;
      if !UpToDate() {
        var entry := Launched(installScript, BootstrapRoot(), true);
        if BootstrapsWithoutWrapper(launched) {
          AppendKeepsBootstrap(launched, entry);
        }
        launched := launched + [entry];
      }
      installing := false;
    }

    /** The run-mode part of `_open_terminal_and_run_pipeline` over the
        corrected policy install: no policy install ever goes through the
        wrapper. */
    method OpenPipelineCorrected(script: string, needRoot: bool, ensurePolicy: bool, policyInstall: bool)
      modifies this
      ensures installing == old(installing)
      ensures wrapperOnDisk == old(wrapperOnDisk) && policyOnDisk == old(policyOnDisk)
      ensures wrapperExecutable == old(wrapperExecutable)
      ensures needRoot && euid != 0 && pkexecOnPath && ensurePolicy && !old(installing) && !old(UpToDate()) ==>
        launched == old(launched) + [Launched(installScript, BootstrapRoot(), true), Launched(script, RootFor(needRoot), policyInstall)]
      ensures !(needRoot && euid != 0 && pkexecOnPath && ensurePolicy && !old(installing) && !old(UpToDate())) ==>
        launched == old(launched) + [Launched(script, RootFor(needRoot), policyInstall)]
      ensures BootstrapsWithoutWrapper(old(launched)) && !(policyInstall && RootFor(needRoot).PkexecWrapper?) ==>
        BootstrapsWithoutWrapper(launched)
    {
      var entry := Launched(script, RootFor(needRoot), policyInstall);
      if needRoot && euid != 0 && pkexecOnPath && ensurePolicy && !installing {
        EnsurePolicyCorrected();
      }
      if BootstrapsWithoutWrapper(launched) {
        AppendKeepsBootstrap(launched, entry);
      }
      launched := launched + [entry];
    }

    /** The effect of a policy install pipeline that ran to its end. */
    method PolicyInstalled()
      modifies this
      ensures wrapperOnDisk == Some(wrapper) && policyOnDisk == Some(policy) && wrapperExecutable
      ensures installing == old(installing) && launched == old(launched)
      ensures UpToDate()
    {
      wrapperOnDisk := Some(wrapper);
      policyOnDisk := Some(policy);
      wrapperExecutable := true;
    }
  }

  /** On a machine without the wrapper, the first pkexec pipeline of a user
      session starts the policy install, as written, through that missing
      wrapper. */
  method AsWrittenBootstrapsThroughWrapper(wrapper: string, policy: string, installScript: string, body: string)
    returns (log: seq<Launched>, wrapperOnDisk: Option<string>)
    ensures log == [Launched(installScript, Script.PkexecWrapper, true), Launched(body, Script.PkexecWrapper, false)]
    ensures wrapperOnDisk == None
    ensures !BootstrapsWithoutWrapper(log)
  {
    var r := new RootRunner(1000, true, "", wrapper, policy, installScript, None, None, false);
    r.OpenPipeline(body, true, true, false);
    log, wrapperOnDisk := r.launched, r.wrapperOnDisk;
    assert log[0].policyInstall && log[0].root.PkexecWrapper?;
  }

  /** The same session with the corrected install: the policy goes in
      through sudo ahead of the pkexec pipeline. */
  method CorrectedBootstrap(wrapper: string, policy: string, installScript: string, body: string)
    returns (log: seq<Launched>)
    ensures log == [Launched(installScript, Script.Sudo("-k"), true), Launched(body, Script.PkexecWrapper, false)]
    ensures BootstrapsWithoutWrapper(log)
  {
    var c := new RootRunner(1000, true, "", wrapper, policy, installScript, None, None, false);
    c.OpenPipelineCorrected(body, true, true, false);
    log := c.launched;
  }

  /** Once installed, the policy is not installed again: a pkexec pipeline
      launches only itself. */
  method InstalledPolicyIsKept(wrapper: string, policy: string, installScript: string, body: string)
    returns (log: seq<Launched>)
    ensures log == [Launched(body, Script.PkexecWrapper, false)]
  {
    var c := new RootRunner(1000, true, "", wrapper, policy, installScript, None, None, false);
    c.PolicyInstalled();
    c.OpenPipeline(body, true, true, false);
    log := c.launched;
  }
}
