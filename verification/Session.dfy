/** pkg/driver/create.go, Create from its placement on: what a Create gains from running on a placement that
    was accepted. */
module Session {
  import opened Text
  import opened Protocol
  import opened Pve
  import opened Machine
  import Clone
  import Driver
  import Flags
  import Placement
  import TraceOrder
  import Validate
  import Vmid

  ghost predicate Accepted(s: Flags.Settings, f: Placement.Facts) {
    Placement.TemplateOk(s, f) && Placement.StorageOk(s, f) && Placement.BridgeOk(s, f)
  }

  /** The template's boot disk, its size as the configuration gives it, and no overflow in reading that. */
  ghost predicate TemplateDisk(f: Placement.Facts, key: string, digits: string, unit: char) {
    && AllDigits(digits) && unit in {'M', 'G', 'T'} && Validate.Fits(digits, unit)
    && key in f.tmpl.disks && f.tmpl.disks[key] == Validate.TrueMB(digits, unit)
    && exists value, gb, q: nat ::
         Validate.IsBoot(f.cfg, Validate.Disk(key, gb, value)) && Validate.Leftmost(value, 0, q, digits, unit)
  }

  /** The disk is not smaller than the template's, and less than one GB short of what was asked for. */
  predicate LargeEnough(vm: Vm, key: string, templateMB: nat, requestedGB: int) {
    && key in vm.disks && vm.disks[key] >= templateMB
    && (requestedGB != 0 ==> vm.disks[key] > requestedGB * 1024 - 1024)
  }

  lemma PlacedDisk(p: Machine.Placement, s: Flags.Settings, f: Placement.Facts, sshKeys: string, me: nat, nic: Nic,
                   key: string, digits: string, unit: char)
    requires Placement.PlacementOf(p, s, f) && Placement.TemplateOk(s, f) && s.diskSizeGB >= 0
    requires TemplateDisk(f, key, digits, unit)
    ensures LargeEnough(FinishedVm(s, p, sshKeys, me, nic), key, Validate.TrueMB(digits, unit), s.diskSizeGB)
  {
    var value, gb, q: nat :|
      Validate.IsBoot(f.cfg, Validate.Disk(key, gb, value)) && Validate.Leftmost(value, 0, q, digits, unit);
    var placed :| Validate.IsBoot(f.cfg, Validate.Disk(p.bootDiskKey, p.templateGB, placed));
    Validate.BootIsUnique(f.cfg, Validate.Disk(key, gb, value), Validate.Disk(p.bootDiskKey, p.templateGB, placed));
    assert Placement.BootDiskIs(p, f, digits, unit);
    Placement.MachineIsLargeEnough(p, s, f, sshKeys, me, nic, digits, unit);
  }

  /** resolvePlacement, then Create on its result. On success the placement was acceptable, the VM is on the
      node that is persisted for Remove, and its boot disk is large enough. Without success a call went wrong,
      or there was no key, no acceptable placement, no VMID or no address; in a run of its own, with a VM that was
      handed over that call was one of provisioning it, and without one cloning was given up for one of its
      reasons. If no call goes wrong, a success adds just the machine's VM, and a failure adds nothing, unless the
      VM is to be kept. */
  method CreateOnPlacement(d: Driver.Driver, c: Cluster, f: Placement.Facts, world: Driver.World,
                           ghost key: string, ghost digits: string, ghost unit: char)
      returns (ok: bool, ghost place: Machine.Placement)
    requires c.Valid() && Vmid.Fair(world.draws) && c.pc == Drawing(CLONE_ATTEMPTS)
    modifies d`vmid, d`pveNode, d`ipAddress, c
    ensures c.Valid() && Blameless(old(c.ledger), old(c.faults), c.ledger, c.faults)
    ensures ok ==> Accepted(d.settings, f) && Placement.PlacementOf(place, d.settings, f)
    ensures ok ==> d.vmid in c.View() && c.View()[d.vmid].node == d.pveNode
    ensures ok && d.settings.diskSizeGB >= 0 && TemplateDisk(f, key, digits, unit) ==>
              LargeEnough(c.View()[d.vmid], key, Validate.TrueMB(digits, unit), d.settings.diskSizeGB)
    ensures !ok ==>
              || c.faults > old(c.faults) || !world.keyOk || !Accepted(d.settings, f)
              || Driver.NoVmid(d.settings, c.vms)
              || Driver.NoAddress(d.settings, place, world, c.me, c.ledger.nics, d.vmid)
    ensures c.start == Drawing(CLONE_ATTEMPTS) && !ok ==>
              if TraceOrder.HandedOver(TraceOrder.Mutations(c.trace)) then
                || Driver.FellThrough(c.errors, |old(c.errors)|, d.vmid)
                || Driver.NoAddress(d.settings, place, world, c.me, c.ledger.nics, d.vmid)
              else
                || !world.keyOk || !Accepted(d.settings, f) || Driver.NoVmid(d.settings, c.vms)
                || Clone.RightlyGivenUp(c.trace, c.errors, |old(c.errors)|, |c.waits| - |old(c.waits)|)
    ensures c.faults == old(c.faults) && old(c.ledger.Excused()) == {} ==>
              if ok then d.vmid !in old(c.View()) && c.View() - {d.vmid} == old(c.View())
              else d.settings.keepOnFailure || c.View() == old(c.View())
  {
    var outcome := Placement.ResolvePlacement(d.settings, f);
    var resolved := if outcome.Placed? then Some(outcome.placement) else None;
    ok := d.Create(c, resolved, world);
    if c.faults == old(c.faults) && old(c.ledger.Excused()) == {} {
      Driver.AllOrNothing(old(c.View()), c.View(), c.me, d.settings, resolved, world.sshKeys, d.vmid, ok);
    }
    if outcome.Placed? {
      place := outcome.placement;
      if ok {
        ghost var vm := c.View()[d.vmid];
        Placement.PersistedNodeIsRight(place, d.settings, f, world.sshKeys, c.me, vm.nic);
        if d.settings.diskSizeGB >= 0 && TemplateDisk(f, key, digits, unit) {
          PlacedDisk(place, d.settings, f, world.sshKeys, c.me, vm.nic, key, digits, unit);
        }
      }
    } else {
      place := *;
    }
  }
}
