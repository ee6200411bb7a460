/** pkg/driver/create.go and the driver's own state: the machine's settings and the VMID, node and
    address that are persisted between driver processes. */
module Driver {
  import opened Text
  import opened Protocol
  import opened Pve
  import opened Clone
  import opened Remove
  import opened Flags
  import opened Machine
  import AgentIp
  import Backoff
  import TraceOrder
  import Validate
  import Vmid

  /** What a Create meets outside the cluster: the random source for VMIDs and for waits, the outcome of
      generating the SSH key, its encoded public half, and the polling rounds. */
  datatype World = World(draws: nat -> nat, roll: nat -> nat, keyOk: bool, sshKeys: string,
                         rounds: nat -> AgentIp.Round)

  function TagText(vm: Vm): Option<string> {
    if Tags in vm.config then Some(vm.config[Tags]) else None
  }

  /** Still the machine's own tagged VM, however far provisioning has come. */
  predicate SameMachine(a: Vm, b: Vm) {
    b == a.(config := b.config, disks := b.disks, running := b.running) && TagText(b) == TagText(a)
  }

  /** The operations of provisioning leave the tags alone. */
  ghost predicate Adjusts(op: Op) {
    (op.Config? && NoTags(op.options)) || op.Resize? || op == Start
  }

  /** A call of provisioning VM `id`, its last read included. */
  ghost predicate InProvisioning(ev: Event, id: int) {
    ev == Got(id, None) || (ev.Did? && ev.id == id && Adjusts(ev.op))
  }

  /** The first call that has gone wrong since was one. */
  ghost predicate BrokeDown(before: seq<(Event, Err)>, after: seq<(Event, Err)>, id: int) {
    |before| < |after| && InProvisioning(after[|before|].0, id)
  }

  lemma AdjustEffect(before: Vms, id: int, op: Op, ok: bool, after: Vms)
    requires id in before && Adjusts(op) && Ended(before, id, op, ok, after)
    ensures id in after && after - {id} == before - {id} && SameMachine(before[id], after[id])
    ensures ok ==> after[id] == Changed(before[id], op)
  {
    if op.Config? {
      ConfiguredKeepsTags(before[id].config, op.options, before[id].nic.mac);
    }
  }

  lemma ConfiguringNext(id: int, options: Options, ok: bool)
    requires NoTags(options)
    ensures Next(Configuring(id), Did(id, Config(options), ok)) == if ok then Sizing(id) else Looking(id, "")
  {
    assert IsConfiguring(Config(options));
  }

  lemma StartNext(pc: Pc, id: int)
    requires pc == Sizing(id) || pc == Starting(id)
    ensures Next(pc, Did(id, Start, true)) == Booted(id) && Next(pc, Did(id, Start, false)) == Looking(id, "")
  {
  }

  /** One step of provisioning: whatever its outcome, the VM is still the machine's tagged VM. */
  method Adjust(c: Cluster, id: int, op: Op) returns (e: Option<Err>)
    requires c.Valid() && id in c.View() && Adjusts(op)
    modifies c
    ensures c.Valid() && c.ledger == old(c.ledger) && c.Called(Did(id, op, e == None), e)
    ensures id in c.View() && c.View() - {id} == old(c.View()) - {id} && SameMachine(old(c.View()[id]), c.View()[id])
    ensures e == None ==> c.View()[id] == Changed(old(c.View()[id]), op)
  {
    ghost var before := c.View();
    e := Perform(c, id, op);
    AdjustEffect(before, id, op, e == None, c.View());
  }

  /** The machine's driver process no longer owes the cluster anything: it is not between an accepted
      clone and the end of tagging, and has not strayed from the protocol. */
  predicate AtRest(pc: Pc) {
    !pc.Cloning? && !pc.Scrapping? && !pc.ScrapDeleting? && !pc.Reading? && !pc.Tagging? && !pc.Astray?
  }

  lemma LookupRests(pc: Pc, want: int, name: string)
    requires AtLookup(pc, want, name) || pc == Ready(want)
    ensures AtRest(pc)
  {
  }

  class Driver {
    const settings: Settings
    var vmid: int
    var pveNode: string
    var ipAddress: string

    constructor (settings: Settings)
      ensures this.settings == settings && vmid == 0 && pveNode == "" && ipAddress == ""
    {
      this.settings, this.vmid, this.pveNode, this.ipAddress := settings, 0, "", "";
    }

    /** The extra tags are split at commas, trimmed, and dropped when empty. */
    method BuildTags() returns (tags: seq<string>)
      ensures tags == TagsOf(settings)
    {
      var extra: seq<string> := [];
      if settings.extraTags != "" {
        extra := TrimParts(Split(settings.extraTags, ','));
      }
      return [MACHINE_TAG] + extra;
    }

    method BuildOptions(sshKeys: string) returns (options: Options)
      ensures options == OptionsOf(settings, sshKeys)
    {
      options := AlwaysSet(settings, sshKeys);
      if settings.cpuType != "" {
        options := options + [(Cpu, settings.cpuType)];
      }
      if settings.ciPassword != "" {
        options := options + [(CiPassword, settings.ciPassword)];
      }
      if settings.nameserver != "" {
        options := options + [(Nameserver, settings.nameserver)];
      }
      if settings.searchdomain != "" {
        options := options + [(Searchdomain, settings.searchdomain)];
      }
      if settings.bridge != "" {
        var net0 := "virtio,bridge=" + settings.bridge;
        if settings.vlanTag > 0 {
          net0 := net0 + ",tag=" + Itoa(settings.vlanTag);
        }
        options := options + [(Net0, net0)];
      }
    }

    /** provision. Success: the VM is configured, grown if asked to, running, and reachable at the
        address recorded, on the address that its net0 has now. Failure: it is still the machine's
        tagged VM, and the process is back before the lookup of a Remove; and a call went wrong, or
        everything was done but the wait for an address ended without one. */
    method Provision(c: Cluster, id: int, node: string, place: Placement, world: World) returns (ok: bool)
      requires c.Valid() && Has(c.View(), node, id) && c.pc == Configuring(id) && id != 0
      modifies this`ipAddress, c
      ensures c.Valid() && c.ledger == old(c.ledger) && c.Later()
      ensures !ok ==>
                BrokeDown(old(c.errors), c.errors, id) || NeverLocated(old(c.View()[id]), settings, place, world)
      ensures id in c.View() && c.View() - {id} == old(c.View()) - {id} && SameMachine(old(c.View()[id]), c.View()[id])
      ensures ok ==> IsProvisioned(old(c.View()[id]), c.View()[id], settings, world.sshKeys, place)
      ensures ok ==> Located(c.View()[id], world, settings.agentTimeout, ipAddress)
      ensures !ok ==> ipAddress == old(ipAddress)
      ensures if ok then c.pc == Ready(id) else AtLookup(c.pc, id, "")
    {
      var vm := ConfigureAndStart(c, id, node, place, world.sshKeys);
      if vm == None {
        return false;
      }
      var nets := NetsOf(vm.value);
      var w, mac, queries, elapsed := AgentIp.WaitForIP(nets, settings.agentTimeout * Backoff.SECOND, world.rounds);
      if w.Reached? {
        ipAddress := w.ip;
        assert LocatedBy(vm.value, world, settings.agentTimeout, w.ip, mac.value, queries, elapsed);
        return true;
      }
      assert mac.Some? ==> UnlocatedBy(vm.value, world, settings.agentTimeout, w, mac.value, queries, elapsed);
      return false;
    }

    /** The mutating steps of provisioning, and the read that refreshes the configuration. */
    method ConfigureAndStart(c: Cluster, id: int, node: string, place: Placement, sshKeys: string)
        returns (vm: Option<Vm>)
      requires c.Valid() && Has(c.View(), node, id) && c.pc == Configuring(id)
      modifies c
      ensures c.Valid() && c.ledger == old(c.ledger) && c.Later()
      ensures if vm.Some? then c.errors == old(c.errors) else BrokeDown(old(c.errors), c.errors, id)
      ensures id in c.View() && c.View() - {id} == old(c.View()) - {id} && SameMachine(old(c.View()[id]), c.View()[id])
      ensures vm.Some? ==>
                vm.value == c.View()[id] && IsProvisioned(old(c.View()[id]), vm.value, settings, sshKeys, place)
      ensures c.pc == if vm.Some? then Ready(id) else Looking(id, "")
    {
      var options := BuildOptions(sshKeys);
      OptionsHaveNoTags(settings, sshKeys);
      var e := Adjust(c, id, Config(options));
      ConfiguringNext(id, options, e == None);
      if e != None {
        return None;
      }
      vm := GrowAndStart(c, id, node, place);
    }

    method GrowAndStart(c: Cluster, id: int, node: string, place: Placement) returns (vm: Option<Vm>)
      requires c.Valid() && Has(c.View(), node, id) && c.pc == Sizing(id)
      modifies c
      ensures c.Valid() && c.ledger == old(c.ledger) && c.Later()
      ensures if vm.Some? then c.errors == old(c.errors) else BrokeDown(old(c.errors), c.errors, id)
      ensures id in c.View() && c.View() - {id} == old(c.View()) - {id} && SameMachine(old(c.View()[id]), c.View()[id])
      ensures vm.Some? ==> vm.value == c.View()[id]
      ensures vm.Some? ==> vm.value == GrownAndStarted(old(c.View()[id]), place.bootDiskKey,
                                                       settings.diskSizeGB > place.templateGB, settings.diskSizeGB)
      ensures c.pc == if vm.Some? then Ready(id) else Looking(id, "")
    {
      if settings.diskSizeGB > place.templateGB {
        var resized := Adjust(c, id, Resize(place.bootDiskKey, settings.diskSizeGB));
        assert c.pc == if resized == None then Starting(id) else Looking(id, "");
        if resized != None {
          return None;
        }
      }
      vm := StartAndRefresh(c, id, node);
    }

    /** The VM that is returned is what a read after the start has shown: net0 may have been rewritten. */
    method StartAndRefresh(c: Cluster, id: int, node: string) returns (vm: Option<Vm>)
      requires c.Valid() && Has(c.View(), node, id) && (c.pc == Sizing(id) || c.pc == Starting(id))
      modifies c
      ensures c.Valid() && c.ledger == old(c.ledger) && c.Later()
      ensures if vm.Some? then c.errors == old(c.errors) else BrokeDown(old(c.errors), c.errors, id)
      ensures id in c.View() && c.View() - {id} == old(c.View()) - {id} && SameMachine(old(c.View()[id]), c.View()[id])
      ensures vm.Some? ==> vm.value == c.View()[id] == Changed(old(c.View()[id]), Start)
      ensures c.pc == if vm.Some? then Ready(id) else Looking(id, "")
    {
      StartNext(c.pc, id);
      var started := Adjust(c, id, Start);
      if started != None {
        return None;
      }
      var ping := c.GetVM(node, id);
      return if ping.Ok? then Some(ping.value) else None;
    }

    /** Create. Success: the cluster has gained exactly one VM, in the range, tagged, provisioned and
        located, and the persisted fields describe it. Failure without keep-on-failure: the cluster is
        as it was. Both up to lost responses and failed clean-ups, and on the part of the cluster that
        outsiders leave alone; when nothing interferes that is all of it. It fails only if a call went
        wrong or for one of the reasons in MayFail. Without a key or a placement it makes no call. In a run of
        its own: VMID and node are persisted as soon as a VM has been handed over, and not before; without
        one, cloning was given up for one of its reasons; with one, a call of provisioning it went wrong or it has
        no address; and then it is removed, if it is not to be kept and the removal does not get stuck. */
    method Create(c: Cluster, resolved: Option<Placement>, world: World) returns (ok: bool)
      requires c.Valid() && Vmid.Fair(world.draws) && c.pc == Drawing(CLONE_ATTEMPTS)
      modifies this`vmid, this`pveNode, this`ipAddress, c
      ensures c.Valid() && Extends(old(c.ledger), c.ledger, c.me)
      ensures CreateOutcome(old(c.View()), c.View(), c.me, c.ledger.Excused(), settings, resolved,
                            world.sshKeys, vmid, ok)
      ensures ok ==> InVmidRange(settings, vmid) && pveNode == resolved.value.targetNode
      ensures ok ==> vmid in c.View() && Located(c.View()[vmid], world, settings.agentTimeout, ipAddress)
      ensures Blameless(old(c.ledger), old(c.faults), c.ledger, c.faults)
      ensures !ok ==> c.faults > old(c.faults) || MayFail(settings, resolved, world, c.me, c.vms, c.ledger.nics, vmid)
      ensures !world.keyOk || resolved == None ==> !ok && c.trace == old(c.trace)
      ensures c.Since() && (!ok ==> ipAddress == old(ipAddress))
      ensures c.start == Drawing(CLONE_ATTEMPTS) ==>
                if TraceOrder.HandedOver(TraceOrder.Mutations(c.trace)) then
                  && TraceOrder.HandedAs(TraceOrder.Mutations(c.trace), vmid) 
                  && resolved.Some? && pveNode == resolved.value.targetNode
                  && (!ok ==> FellThrough(c.errors, |old(c.errors)|, vmid)
                              || NoAddress(settings, resolved.value, world, c.me, c.ledger.nics, vmid))
                  && (!ok && !settings.keepOnFailure ==>
                        vmid !in c.View() || GotStuck(c.errors, |old(c.errors)|))
                else
                  && !ok && vmid == old(vmid) && pveNode == old(pveNode)
                  && (|| !world.keyOk || resolved == None || NoVmid(settings, c.vms)
                      || RightlyGivenUp(c.trace, c.errors, |old(c.errors)|, |c.waits| - |old(c.waits)|))
      ensures AtRest(c.pc) && (ok ==> c.pc == Ready(vmid))
      ensures c.start == Drawing(CLONE_ATTEMPTS) ==>
                var m := TraceOrder.Mutations(c.trace);
                && TraceOrder.CreateOrder(m)
                && (ok ==> TraceOrder.OnlyForward(vmid, m) && TraceOrder.LastOf(m) == Did(vmid, Start, true))
                && (!ok && settings.keepOnFailure && TraceOrder.HandedOver(m) ==> TraceOrder.OnlyForward(vmid, m))
    {
      ok := false;
      if world.keyOk && resolved != None {
        ok := MakeMachine(c, resolved.value, world);
      } else if c.start == Drawing(CLONE_ATTEMPTS) {
        TraceOrder.NotHandedOver(c.trace);
      }
      if c.start == Drawing(CLONE_ATTEMPTS) {
        CreateTrace(c.pc, c.trace, vmid, ok, settings.keepOnFailure);
      }
    }

    /** Create from where the calls that change something begin. */
    method MakeMachine(c: Cluster, place: Placement, world: World) returns (ok: bool)
      requires c.Valid() && Vmid.Fair(world.draws) && c.pc == Drawing(CLONE_ATTEMPTS)
      modifies this`vmid, this`pveNode, this`ipAddress, c
      ensures c.Valid() && Extends(old(c.ledger), c.ledger, c.me)
      ensures CreateOutcome(old(c.View()), c.View(), c.me, c.ledger.Excused(), settings, Some(place),
                            world.sshKeys, vmid, ok)
      ensures ok ==> InVmidRange(settings, vmid) && pveNode == place.targetNode
      ensures ok ==> vmid in c.View() && Located(c.View()[vmid], world, settings.agentTimeout, ipAddress)
      ensures Blameless(old(c.ledger), old(c.faults), c.ledger, c.faults)
      ensures !ok ==>
                || c.faults > old(c.faults) || NoVmid(settings, c.vms)
                || NoAddress(settings, place, world, c.me, c.ledger.nics, vmid)
      ensures c.Since() && (!ok ==> ipAddress == old(ipAddress))
      ensures c.start == Drawing(CLONE_ATTEMPTS) ==>
                if TraceOrder.HandedOver(TraceOrder.Mutations(c.trace)) then
                  && TraceOrder.HandedAs(TraceOrder.Mutations(c.trace), vmid) && pveNode == place.targetNode
                  && (!ok ==> FellThrough(c.errors, |old(c.errors)|, vmid)
                              || NoAddress(settings, place, world, c.me, c.ledger.nics, vmid))
                  && (!ok && !settings.keepOnFailure ==>
                        vmid !in c.View() || GotStuck(c.errors, |old(c.errors)|))
                else
                  && !ok && vmid == old(vmid) && pveNode == old(pveNode)
                  && (|| NoVmid(settings, c.vms)
                      || RightlyGivenUp(c.trace, c.errors, |old(c.errors)|, |c.waits| - |old(c.waits)|))
      ensures AtRest(c.pc) && (ok ==> c.pc == Ready(vmid) && vmid != 0)
      ensures !ok && settings.keepOnFailure ==>
                c.pc.Drawing? || c.pc.Posting? || (AtLookup(c.pc, vmid, "") && vmid != 0)
    {
      var cloned := CloneMachine(c, place, world);
      if cloned == None {
        if c.start == Drawing(CLONE_ATTEMPTS) {
          TraceOrder.NotHandedOver(c.trace);
        }
        return false;
      }
      ghost var tagged, errors := c.View()[cloned.value.0], c.errors;
      ok := Adopt(c, old(c.View()), cloned.value, place, world);
      if GotStuck(c.errors, |errors|) {
        StuckSince(c.errors, |errors|, |old(c.errors)|);
      }
      assert tagged == TaggedClone(settings, place, c.me, c.ledger.nics[vmid]);
    }

    /** From the clone on: the machine's VM is recorded, then provisioned or removed again. */
    method Adopt(c: Cluster, ghost before: Vms, cloned: (int, Vm), place: Placement, world: World) returns (ok: bool)
      requires c.Valid() && c.pc == Configuring(cloned.0) && cloned.0 in c.ledger.held && cloned.0 >= 100
      requires Adopted(before, c.View(), c.me, c.ledger.Excused(), settings, place, cloned.0)
      requires Has(c.View(), cloned.1.node, cloned.0)
      modifies this`vmid, this`pveNode, this`ipAddress, c
      ensures c.Valid() && Extends(old(c.ledger), c.ledger, c.me)
      ensures CreateOutcome(before, c.View(), c.me, c.ledger.Excused(), settings, Some(place), world.sshKeys, vmid, ok)
      ensures vmid == cloned.0 && pveNode == place.targetNode && c.ledger.nics == old(c.ledger.nics)
      ensures Blameless(old(c.ledger), old(c.faults), c.ledger, c.faults)
      ensures c.Since() && (!ok ==> ipAddress == old(ipAddress))
      ensures !ok ==>
                || BrokeDown(old(c.errors), c.errors, vmid)
                || NeverLocated(old(c.View()[cloned.0]), settings, place, world)
      ensures !ok && !settings.keepOnFailure ==> vmid !in c.View() || GotStuck(c.errors, |old(c.errors)|)
      ensures c.start == Drawing(CLONE_ATTEMPTS) ==> TraceOrder.HandedAs(TraceOrder.Mutations(c.trace), vmid)
      ensures ok ==> vmid in c.View() && Located(c.View()[vmid], world, settings.agentTimeout, ipAddress)
      ensures AtRest(c.pc) && (ok ==> c.pc == Ready(vmid))
      ensures !ok && settings.keepOnFailure ==> AtLookup(c.pc, vmid, "")
    {
      vmid, pveNode := cloned.0, place.targetNode;
      ok := ProvisionOrRemove(c, cloned.1.node, place, world);
      assert CreateOutcome(before, c.View(), c.me, c.ledger.Excused(), settings, Some(place), world.sshKeys, vmid, ok)
      by {
        CreateOutcomeAfter(before, old(c.View()), c.View(), c.me, old(c.ledger.Excused()), c.ledger.Excused(),
                           settings, place, world.sshKeys, vmid, ok);
      }
    }

    /** The first half of Create: a tagged clone under a VMID of the range. */
    method CloneMachine(c: Cluster, place: Placement, world: World) returns (r: Option<(int, Vm)>)
      requires c.Valid() && Vmid.Fair(world.draws) && c.pc == Drawing(CLONE_ATTEMPTS)
      modifies c
      ensures c.Valid() && Extends(old(c.ledger), c.ledger, c.me)
      ensures r == None ==> Keeps(old(c.View()), c.View(), c.ledger.Excused())
      ensures r.Some? ==> r.value.0 in c.ledger.held && r.value.0 >= 100 && InVmidRange(settings, r.value.0)
                          && Adopted(old(c.View()), c.View(), c.me, c.ledger.Excused(), settings, place, r.value.0)
      ensures r.Some? ==> Has(c.View(), r.value.1.node, r.value.0)
      ensures Blameless(old(c.ledger), old(c.faults), c.ledger, c.faults)
      ensures c.Since() && (r == None ==> c.faults > old(c.faults) || NoVmid(settings, c.vms))
      ensures c.start == Drawing(CLONE_ATTEMPTS) && r == None ==>
                || NoVmid(settings, c.vms)
                || RightlyGivenUp(c.trace, c.errors, |old(c.errors)|, |c.waits| - |old(c.waits)|)
      ensures if r.Some? then c.pc == Configuring(r.value.0) else c.pc.Drawing? || c.pc.Posting?
    {
      var range := ParseVmidRange(settings.vmidRange);
      if range == None {
        return None;
      }
      var tags := BuildTags();
      var spec := CloneSpec(settings.machineName, settings.nodeName, range.value.0, range.value.1, tags);
      var never: nat -> bool := k => false;
      var cloned := CloneFromTemplate(c, place.template, spec, never, world.draws, world.roll);
      if cloned.Fail? {
        return None;
      }
      AdoptedClone(old(c.View()), c.View(), c.me, c.ledger.Excused(), settings, place, cloned.value.0);
      return Some(cloned.value);
    }

    /** The second half of Create, on a tagged clone: provision it, and unless the VM is to be kept,
        remove it again when that fails. */
    method ProvisionOrRemove(c: Cluster, node: string, place: Placement, world: World) returns (ok: bool)
      requires c.Valid() && c.pc == Configuring(vmid) && vmid != 0
      requires Has(c.View(), node, vmid) && HasTag(c.View()[vmid], MACHINE_TAG)
      modifies this`ipAddress, c
      ensures c.Valid() && old(c.ledger.Excused()) <= c.ledger.Excused() && c.ledger.nics == old(c.ledger.nics)
      ensures Blameless(old(c.ledger), old(c.faults), c.ledger, c.faults)
      ensures c.Since() && (!ok ==> ipAddress == old(ipAddress))
      ensures !ok ==>
                BrokeDown(old(c.errors), c.errors, vmid) || NeverLocated(old(c.View()[vmid]), settings, place, world)
      ensures !ok && !settings.keepOnFailure ==> vmid !in c.View() || GotStuck(c.errors, |old(c.errors)|)
      ensures c.start == Drawing(CLONE_ATTEMPTS) ==> TraceOrder.HandedAs(TraceOrder.Mutations(c.trace), vmid)
      ensures ProvisionOutcome(old(c.View()), c.View(), c.ledger.Excused(), settings, place, world.sshKeys, vmid, ok)
      ensures ok ==> Located(c.View()[vmid], world, settings.agentTimeout, ipAddress)
      ensures vmid in old(c.ledger.held) ==> Extends(old(c.ledger), c.ledger, c.me)
      ensures AtRest(c.pc) && (ok ==> c.pc == Ready(vmid))
      ensures !ok && settings.keepOnFailure ==> AtLookup(c.pc, vmid, "")
    {
      ok := Provision(c, vmid, node, place, world);
      LookupRests(c.pc, vmid, "");
      if !ok && !settings.keepOnFailure {
        ghost var errors := c.errors;
        RemoveAgain(c, world.roll);
        if GotStuck(c.errors, |errors|) {
          StuckSince(c.errors, |errors|, |old(c.errors)|);
        }
      }
      if c.start == Drawing(CLONE_ATTEMPTS) {
        Handed(old(c.trace), c.trace, vmid);
      }
    }

    /** The removal after a failed provisioning; its error is only remembered in the ledger. */
    method RemoveAgain(c: Cluster, roll: nat -> nat)
      requires c.Valid() && AtLookup(c.pc, vmid, "") && vmid != 0
      requires vmid in c.View() && c.View()[vmid].kind.Qemu? && HasTag(c.View()[vmid], MACHINE_TAG)
      modifies c
      ensures c.Valid() && old(c.ledger.Excused()) <= c.ledger.Excused() && c.ledger.nics == old(c.ledger.nics)
      ensures Blameless(old(c.ledger), old(c.faults), c.ledger, c.faults)
      ensures c.View() - {vmid} == old(c.View()) - {vmid} && (vmid !in c.View() || vmid in c.ledger.Excused())
      ensures c.Since() && (vmid !in c.View() || Stuck(c.errors, |old(c.errors)|, |c.waits| - |old(c.waits)|))
      ensures vmid in old(c.ledger.held) ==> Extends(old(c.ledger), c.ledger, c.me)
      ensures AtRest(c.pc)
    {
      ghost var before := c.View();
      assert Targets(before, vmid, vmid, settings.machineName);
      var cleanup := Remove.Remove(c, vmid, pveNode, settings.machineName, roll);
      if cleanup != None {
        c.ledger := c.ledger.(uncleaned := c.ledger.uncleaned + {vmid});
      }
    }

    /** The driver's Remove, in a process of its own: from the state that a Create persisted. */
    method RemoveMachine(c: Cluster, roll: nat -> nat) returns (e: Option<Err>)
      requires c.Valid() && c.pc == Looking(vmid, settings.machineName)
      modifies c
      ensures c.Valid() && c.ledger == old(c.ledger).(victims := c.ledger.victims)
      ensures c.quiet || vmid != 0 ==> Removed(old(c.View()), c.View(), vmid, settings.machineName, e == None)
      ensures RemovedHereOrElsewhere(old(c.View()), c.View(), vmid, settings.machineName, e == None)
      ensures e != None ==> c.faults > old(c.faults) || (IsForeign(c.vms, vmid) && c.View() == old(c.View()))
      ensures e != None ==>
                || Stuck(c.errors, |old(c.errors)|, |c.waits| - |old(c.waits)|)
                || (IsForeign(c.vms, vmid) && c.View() == old(c.View()))
      ensures c.quiet && c.faults == old(c.faults) ==>
                RemovedFaultless(old(c.View()), c.View(), vmid, settings.machineName, e == None)
      ensures c.start == Looking(vmid, settings.machineName) ==> TraceOrder.Removal(vmid, TraceOrder.Mutations(c.trace))
    {
      e := Remove.Remove(c, vmid, pveNode, settings.machineName, roll);
      if c.start == Looking(vmid, settings.machineName) {
        TraceOrder.RemoveInOrder(vmid, settings.machineName, c.trace);
      }
    }
  }

  lemma Handed(tagged: seq<Event>, trace: seq<Event>, id: int)
    requires Run(Drawing(CLONE_ATTEMPTS), tagged) == Configuring(id) && tagged <= trace
    requires Run(Drawing(CLONE_ATTEMPTS), trace) != Astray
    ensures TraceOrder.HandedAs(TraceOrder.Mutations(trace), id)
  {
    var more := trace[|tagged|..];
    assert trace == tagged + more;
    TraceOrder.StaysHanded(tagged, more, id);
  }

  lemma AdoptedClone(before: Vms, tagged: Vms, me: nat, excused: set<int>, s: Settings, place: Placement, id: int)
    requires id !in before && id in tagged && Keeps(before, tagged - {id}, excused)
    requires tagged[id] == TaggedClone(s, place, me, tagged[id].nic)
    ensures Adopted(before, tagged, me, excused, s, place, id)
  {
    var copy := Cloned(place.template, s.machineName, TargetNode(place.template, s.nodeName), me, tagged[id].nic);
    StampedHasTag(copy, TagsOf(s), MACHINE_TAG);
  }

  lemma KeepsAfter(before: Vms, middle: Vms, after: Vms, id: int, excused: set<int>, more: set<int>)
    requires Keeps(before, middle - {id}, excused) && id !in before && excused <= more
    requires after - {id} == middle - {id}
    ensures Keeps(before, after - {id}, more)
    ensures id !in after || id in more ==> Keeps(before, after, more)
  {
    assert forall i | i in after && i != id :: i in after - {id};
    assert forall i | i in before :: i in after - {id} && after[i] == (after - {id})[i];
  }

  lemma CreateOutcomeAfter(before: Vms, tagged: Vms, after: Vms, me: nat, excused: set<int>, more: set<int>,
                           s: Settings, place: Placement, sshKeys: string, id: int, ok: bool)
    requires Adopted(before, tagged, me, excused, s, place, id) && excused <= more
    requires ProvisionOutcome(tagged, after, more, s, place, sshKeys, id, ok)
    ensures CreateOutcome(before, after, me, more, s, Some(place), sshKeys, id, ok)
  {
    KeepsAfter(before, tagged, after, id, excused, more);
  }

  /** The cluster has gained the machine's tagged clone, and apart from it only excused VMs. */
  ghost predicate Adopted(before: Vms, tagged: Vms, me: nat, excused: set<int>, s: Settings, place: Placement,
                          id: int)
  {
    && id !in before && id in tagged && Keeps(before, tagged - {id}, excused)
    && tagged[id] == TaggedClone(s, place, me, tagged[id].nic) && HasTag(tagged[id], MACHINE_TAG)
  }

  predicate IsProvisioned(tagged: Vm, vm: Vm, s: Settings, sshKeys: string, place: Placement) {
    vm == Provisioned(tagged, OptionsOf(s, sshKeys), place.bootDiskKey, s.diskSizeGB > place.templateGB, s.diskSizeGB)
  }

  /** What provisioning, or the removal after it failed, does to the tagged VM, and to no other. */
  ghost predicate ProvisionOutcome(tagged: Vms, after: Vms, excused: set<int>, s: Settings, place: Placement,
                                   sshKeys: string, id: int, ok: bool)
    requires id in tagged
  {
    && after - {id} == tagged - {id}
    && (if ok then id in after && IsProvisioned(tagged[id], after[id], s, sshKeys, place)
        else if s.keepOnFailure then id in after && SameMachine(tagged[id], after[id])
        else id !in after || id in excused)
  }

  /** What Create does to the stable part of the cluster. `excused` holds the VMIDs of lost responses
      and failed clean-ups. */
  ghost predicate CreateOutcome(before: Vms, after: Vms, me: nat, excused: set<int>, s: Settings,
                                resolved: Option<Placement>, sshKeys: string, id: int, ok: bool)
  {
    if ok then
      && resolved.Some? && id !in before && id in after && Keeps(before, after - {id}, excused)
      && after[id] == FinishedVm(s, resolved.value, sshKeys, me, after[id].nic)
    else
      || Keeps(before, after, excused)
      || (s.keepOnFailure && id !in before && Keeps(before, after - {id}, excused)
          && Named(after, id, s.machineName, MACHINE_TAG))
  }

  /** All or nothing: when no response was lost and every clean-up worked, a Create adds exactly its
      finished VM, or changes nothing at all (or, if asked to, keeps its tagged VM). */
  lemma AllOrNothing(before: Vms, after: Vms, me: nat, s: Settings, resolved: Option<Placement>, sshKeys: string,
      id: int, ok: bool)
    requires CreateOutcome(before, after, me, {}, s, resolved, sshKeys, id, ok)
    ensures ok ==> resolved.Some? && id !in before && id in after && after - {id} == before
                   && after[id] == FinishedVm(s, resolved.value, sshKeys, me, after[id].nic)
    ensures !ok && !s.keepOnFailure ==> after == before
    ensures !ok ==>
              || after == before
              || (id !in before && Named(after, id, s.machineName, MACHINE_TAG) && after - {id} == before)
  {
    if Keeps(before, after, {}) {
      KeepsNothing(before, after);
    } else {
      KeepsNothing(before, after - {id});
    }
  }

  lemma KeepsNothing(before: Vms, after: Vms)
    requires Keeps(before, after, {})
    ensures after == before
  {
    assert forall id :: id in after.Keys <==> id in before.Keys;
    assert forall id | id in before.Keys :: after[id] == before[id];
  }

  /** The address was located on the address that net0 has in the VM's configuration. */
  ghost predicate Located(vm: Vm, world: World, timeoutSeconds: int, ip: string) {
    exists mac, queries: nat, elapsed: nat :: LocatedBy(vm, world, timeoutSeconds, ip, mac, queries, elapsed)
  }

  ghost predicate LocatedBy(vm: Vm, world: World, timeoutSeconds: int, ip: string, mac: string, queries: nat,
                            elapsed: nat)
  {
    && Validate.IsMacOf(NetsOf(vm), "net0", mac)
    && AgentIp.Explains(world.rounds, mac, timeoutSeconds * Backoff.SECOND, AgentIp.Reached(ip), queries, elapsed)
  }

  /** The wait on the VM's network address ended without an address, or there was none to wait on. */
  ghost predicate Unlocated(vm: Vm, world: World, timeoutSeconds: int) {
    || (forall part | part in Validate.NicParts(NetsOf(vm), "net0") :: !Validate.HoldsMac(part))
    || exists w, mac, queries: nat, elapsed: nat :: UnlocatedBy(vm, world, timeoutSeconds, w, mac, queries, elapsed)
  }

  ghost predicate UnlocatedBy(vm: Vm, world: World, timeoutSeconds: int, w: AgentIp.Waited, mac: string,
                              queries: nat, elapsed: nat)
  {
    && Validate.IsMacOf(NetsOf(vm), "net0", mac) && !w.Reached?
    && AgentIp.Explains(world.rounds, mac, timeoutSeconds * Backoff.SECOND, w, queries, elapsed)
  }

  lemma NotBoth(vm: Vm, world: World, timeoutSeconds: int, ip: string)
    requires Located(vm, world, timeoutSeconds, ip)
    ensures !Unlocated(vm, world, timeoutSeconds)
  {
    var mac, queries: nat, elapsed: nat :| LocatedBy(vm, world, timeoutSeconds, ip, mac, queries, elapsed);
    var i: nat :| Validate.FirstMac(Validate.NicParts(NetsOf(vm), "net0"), i);
    assert Validate.NicParts(NetsOf(vm), "net0")[i] in Validate.NicParts(NetsOf(vm), "net0");
    if w, other, more: nat, later: nat :| UnlocatedBy(vm, world, timeoutSeconds, w, other, more, later) {
      Validate.MacIsUnique(NetsOf(vm), "net0", mac, other);
      var timeout, reached := timeoutSeconds * Backoff.SECOND, AgentIp.Reached(ip);
      AgentIp.ExplainedOnce(world.rounds, mac, timeout, reached, queries, elapsed, w, more, later);
    }
  }

  /** It is always one or the other: the configuration and the rounds decide whether an address is found. */
  lemma LocatedOrNot(vm: Vm, world: World, timeoutSeconds: int)
    ensures Unlocated(vm, world, timeoutSeconds) <==> !exists ip :: Located(vm, world, timeoutSeconds, ip)
  {
    if ip :| Located(vm, world, timeoutSeconds, ip) {
      NotBoth(vm, world, timeoutSeconds, ip);
    } else if part :| part in Validate.NicParts(NetsOf(vm), "net0") && Validate.HoldsMac(part) {
      var mac := Validate.HasMac(NetsOf(vm), "net0", part);
      var w, queries, elapsed := AgentIp.AlwaysExplained(world.rounds, mac, timeoutSeconds * Backoff.SECOND, 0);
      if w.Reached? {
        assert LocatedBy(vm, world, timeoutSeconds, w.ip, mac, queries, elapsed);
        assert Located(vm, world, timeoutSeconds, w.ip);
      }
      assert !w.Reached? ==> UnlocatedBy(vm, world, timeoutSeconds, w, mac, queries, elapsed);
    }
  }

  /** A Remove has failed since, for one of its reasons. */
  ghost predicate GotStuck(errors: seq<(Event, Err)>, from: nat) {
    exists waits :: Stuck(errors, from, waits)
  }

  lemma StuckSince(errors: seq<(Event, Err)>, from: nat, earlier: nat)
    requires GotStuck(errors, from) && earlier <= from
    ensures GotStuck(errors, earlier)
  {
    var waits :| Stuck(errors, from, waits);
    assert Stuck(errors, earlier, waits);
  }

  /** A call of provisioning VM `id` has gone wrong since. */
  ghost predicate FellThrough(errors: seq<(Event, Err)>, from: nat, id: int) {
    exists k | from <= k < |errors| :: InProvisioning(errors[k].0, id)
  }

  /** Everything was done to the tagged VM, and yet no address was found. */
  ghost predicate NeverLocated(tagged: Vm, s: Settings, place: Placement, world: World) {
    Unlocated(Provisioned(tagged, OptionsOf(s, world.sshKeys), place.bootDiskKey, s.diskSizeGB > place.templateGB,
                          s.diskSizeGB), world, s.agentTimeout)
  }

  /** There is no range to draw from, or it is full. */
  ghost predicate NoVmid(s: Settings, vms: Vms) {
    match ParseVmidRange(s.vmidRange)
    case Some((lo, hi)) => RangeFull(vms, lo, hi)
    case None => true
  }

  /** Why a Create may fail although no call goes wrong: there is no key, no placement or no VMID, or its
      machine was finished but no address was found. */
  ghost predicate MayFail(s: Settings, resolved: Option<Placement>, world: World, me: nat, vms: Vms,
                          nics: map<int, Nic>, id: int)
  {
    || !world.keyOk || resolved == None || NoVmid(s, vms)
    || NoAddress(s, resolved.value, world, me, nics, id)
  }

  /** The machine that was made under this VMID, with the network device that PVE chose for it, was finished,
      and yet no address was found. */
  ghost predicate NoAddress(s: Settings, place: Placement, world: World, me: nat, nics: map<int, Nic>, id: int) {
    id in nics && NeverLocated(TaggedClone(s, place, me, nics[id]), s, place, world)
  }

  /** It holds exactly when that finished machine has no address, so that it is no excuse for failing on a
      machine that could be found. */
  lemma NoAddressExactly(s: Settings, place: Placement, world: World, me: nat, nics: map<int, Nic>, id: int)
    requires id in nics
    ensures NoAddress(s, place, world, me, nics, id) <==>
            !exists ip :: Located(FinishedVm(s, place, world.sshKeys, me, nics[id]), world, s.agentTimeout, ip)
  {
    LocatedOrNot(FinishedVm(s, place, world.sshKeys, me, nics[id]), world, s.agentTimeout);
  }

  /** With a bridge, the address found was on the network address that PVE gave to the rewritten net0, so
      that the configuration of before the rewrite would not have done. */
  lemma LocatedOnRewritten(s: Settings, place: Placement, world: World, me: nat, nic: Nic, vm: Vm, ip: string)
    requires vm == FinishedVm(s, place, world.sshKeys, me, nic) && s.bridge != "" && PlainMac(nic.mac)
    ensures Located(vm, world, s.agentTimeout, ip) <==>
              exists queries: nat, elapsed: nat ::
                AgentIp.Explains(world.rounds, ToUpper(nic.mac), s.agentTimeout * Backoff.SECOND,
                    AgentIp.Reached(ip), queries, elapsed)
  {
    var mac := ToUpper(nic.mac);
    RewrittenMac(s, place, world.sshKeys, me, nic, vm, mac);
    if Located(vm, world, s.agentTimeout, ip) {
      var other, queries: nat, elapsed: nat :| LocatedBy(vm, world, s.agentTimeout, ip, other, queries, elapsed);
      RewrittenMac(s, place, world.sshKeys, me, nic, vm, other);
    }
    if queries: nat, elapsed: nat :|
      AgentIp.Explains(world.rounds, mac, s.agentTimeout * Backoff.SECOND, AgentIp.Reached(ip), queries, elapsed)
    {
      assert LocatedBy(vm, world, s.agentTimeout, ip, mac, queries, elapsed);
    }
  }

  predicate InVmidRange(s: Settings, id: int) {
    var range := ParseVmidRange(s.vmidRange);
    range.Some? && range.value.0 <= id <= range.value.1
  }

  /** What the calls of a Create say about its mutations. */
  lemma CreateTrace(pc: Pc, trace: seq<Event>, id: int, ok: bool, kept: bool)
    requires pc == Run(Drawing(CLONE_ATTEMPTS), trace) != Astray
    requires ok ==> pc == Ready(id) && id != 0
    requires !ok && kept ==> pc.Drawing? || pc.Posting? || (AtLookup(pc, id, "") && id != 0)
    ensures var m := TraceOrder.Mutations(trace);
            && TraceOrder.CreateOrder(m)
            && (ok ==> TraceOrder.OnlyForward(id, m) && TraceOrder.LastOf(m) == Did(id, Start, true))
            && (!ok && kept && TraceOrder.HandedOver(m) ==> TraceOrder.OnlyForward(id, m))
  {
    TraceOrder.CreateInOrder(trace);
    if ok || (kept && AtLookup(pc, id, "")) {
      TraceOrder.NothingUndone(trace, id);
      if ok {
        TraceOrder.ReadyIsStarted(trace, id);
      }
    } else if kept {
      TraceOrder.NotHandedOver(trace);
    }
  }
}
