/** The two-directory object store behind the data server, one map per directory. */
module ObjectStore {
  import opened Common

  datatype Tier = Critical | Refinement

  /** Any tier name other than "refinement" means the critical directory. */
  function TierOf(name: string): Tier { if name == "refinement" then Refinement else Critical }

  /** The two directories, and the ids that the file system refuses to create as files. */
  datatype Disk = Disk(critical: map<string, seq<byte>>, refinement: map<string, seq<byte>>, unwritable: set<string>) {
    function Files(tier: Tier): map<string, seq<byte>> {
      if tier.Refinement? then refinement else critical
    }

    function WithFiles(tier: Tier, files: map<string, seq<byte>>): (d: Disk)
      ensures d.Files(tier) == files && d.unwritable == unwritable
      ensures forall t :: t != tier ==> d.Files(t) == Files(t)
    {
      if tier.Refinement? then this.(refinement := files) else this.(critical := files)
    }

    function Read(tier: Tier, id: string): Option<seq<byte>> {
      if id in Files(tier) then Some(Files(tier)[id]) else None
    }

    function Written(tier: Tier, id: string, data: seq<byte>): (d: Disk)
      ensures id in unwritable ==> d == this
    {
      if id in unwritable then this else WithFiles(tier, Files(tier)[id := data])
    }

    function Removed(tier: Tier, id: string): Disk { WithFiles(tier, Files(tier) - {id}) }
  }

  class LocalDiskBackend {
    var criticalDir: map<string, seq<byte>>
    var refinementDir: map<string, seq<byte>>
    const unwritable: set<string>

    constructor (unwritable: set<string>)
      ensures View() == Disk(map[], map[], unwritable)
    {
      this.unwritable := unwritable;
      criticalDir, refinementDir := map[], map[];
    }

    function View(): Disk
      reads this
    {
      Disk(criticalDir, refinementDir, unwritable)
    }

    method Get(id: string, tier: string) returns (data: Option<seq<byte>>)
      ensures data == View().Read(TierOf(tier), id)
      ensures var dir := if tier == "refinement" then refinementDir else criticalDir;
              data == if id in dir then Some(dir[id]) else None
    {
      var dir := if tier == "refinement" then refinementDir else criticalDir;
      if id in dir {
        data := Some(dir[id]);
      } else {
        data := None;
      }
    }

    method Put(id: string, data: seq<byte>, tier: string) returns (ok: bool)
      modifies this
      ensures ok <==> id !in unwritable
      ensures View() == old(View()).Written(TierOf(tier), id, data)
      ensures criticalDir == if ok && tier != "refinement" then old(criticalDir)[id := data] else old(criticalDir)
      ensures refinementDir == if ok && tier == "refinement" then old(refinementDir)[id := data] else old(refinementDir)
    {
      if id in unwritable { return false; }
      if tier == "refinement" {
        refinementDir := refinementDir[id := data];
      } else {
        criticalDir := criticalDir[id := data];
      }
      ok := true;
    }

    method Delete(id: string, tier: string) returns (existed: bool)
      modifies this
      ensures existed <==> old(View()).Read(TierOf(tier), id).Some?
      ensures View() == old(View()).Removed(TierOf(tier), id)
      ensures criticalDir == if tier != "refinement" then old(criticalDir) - {id} else old(criticalDir)
      ensures refinementDir == if tier == "refinement" then old(refinementDir) - {id} else old(refinementDir)
    {
      if tier == "refinement" {
        existed := id in refinementDir;
        refinementDir := refinementDir - {id};
      } else {
        existed := id in criticalDir;
        criticalDir := criticalDir - {id};
      }
    }

    method Exists(id: string, tier: string) returns (found: bool)
      ensures found <==> View().Read(TierOf(tier), id).Some?
    {
      var data := Get(id, tier);
      found := data.Some?;
    }

    method Size(id: string, tier: string) returns (n: nat)
      ensures n == match View().Read(TierOf(tier), id) case Some(data) => |data| case None => 0
    {
      var data := Get(id, tier);
      n := if data.Some? then |data.value| else 0;
    }
  }
}
