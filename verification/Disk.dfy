/** The host's file system as the agent uses it: whole files, replaced atomically by rename, and
    directory operations that are volatile until their directory is flushed. */
module Disk {
  import opened Text

  datatype Path = Path(dir: string, base: string)

  /** `ver` records which gateway reply a file was written from. No step reads it: it is a history
      variable that lets properties name the origin of what is on disk. */
  datatype File = File(content: string, mode: nat, ver: nat)

  /** `cur` is what every process sees at a path; `may` is what a power loss can leave there: the last
      flushed value, or the value of any later directory operation, whichever subset of them survives. */
  datatype Entry = Entry(cur: Option<File>, may: set<Option<File>>)

  type Disk = map<Path, Entry>

  function Look(d: Disk, p: Path): Option<File> {
    if p in d then d[p].cur else None
  }

  function May(d: Disk, p: Path): set<Option<File>> {
    if p in d then d[p].may + {d[p].cur} else {None}
  }

  function Set(d: Disk, p: Path, x: Option<File>): Disk {
    d[p := Entry(x, May(d, p) + {x})]
  }

  function Put(d: Disk, p: Path, f: File): Disk {
    Set(d, p, Some(f))
  }

  function Remove(d: Disk, p: Path): Disk {
    if Look(d, p).Some? then Set(d, p, None) else d
  }

  function Rename(d: Disk, from: Path, to: Path): Disk
    requires Look(d, from).Some?
  {
    Put(Remove(d, from), to, Look(d, from).value)
  }

  /** fsync of a directory: every entry in it becomes what it currently is. */
  function Flush(d: Disk, dir: string): Disk {
    map p | p in d :: if p.dir == dir then Entry(d[p].cur, {d[p].cur}) else d[p]
  }

  /** A power loss: every path independently falls back to one of its surviving values. `pick` proposes
      one per path; a proposal that could not survive leaves the current value. */
  function AfterPowerLoss(d: Disk, pick: map<Path, Option<File>>): Disk {
    map p | p in d ::
      var x := if p in pick && pick[p] in May(d, p) then pick[p] else d[p].cur;
      Entry(x, {x})
  }

  /** What may be found at `p` later without a further operation on it. */
  ghost predicate Possible(powerLoss: bool, d: Disk, p: Path, x: Option<File>) {
    x == Look(d, p) || (powerLoss && x in May(d, p))
  }

  /** A rename moves one file and leaves every other path alone. */
  lemma LookAfterRename(d: Disk, from: Path, to: Path, q: Path)
    requires Look(d, from).Some? && from != to
    ensures Look(Rename(d, from, to), q) ==
      if q == to then Look(d, from) else if q == from then None else Look(d, q)
  {
  }

  lemma PossibleAfterSet(powerLoss: bool, d: Disk, p: Path, y: Option<File>, q: Path, x: Option<File>)
    requires Possible(powerLoss, Set(d, p, y), q, x)
    ensures (q == p && x == y) || (Possible(powerLoss, d, q, x) && (q == p ==> powerLoss))
  {
  }

  lemma PossibleAfterFlush(powerLoss: bool, d: Disk, dir: string, q: Path, x: Option<File>)
    requires Possible(powerLoss, Flush(d, dir), q, x)
    ensures Possible(powerLoss, d, q, x)
    ensures q.dir == dir ==> x == Look(d, q)
  {
  }

  lemma PossibleAfterPowerLoss(d: Disk, pick: map<Path, Option<File>>, powerLoss: bool, q: Path, x: Option<File>)
    requires Possible(powerLoss, AfterPowerLoss(d, pick), q, x)
    ensures Possible(true, d, q, x)
    ensures x == Look(AfterPowerLoss(d, pick), q)
  {
  }
}
