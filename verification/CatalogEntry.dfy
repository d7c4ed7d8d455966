/**
 The current and the dirty schema of a table on one node, `CatalogEntry`
 (include/catalog_key_record.h). The shards of the node install and commit a new schema
 in parallel; each call holds the entry's lock, so a run is a sequence of calls.
 */
module CatalogEntry {
  import opened Options

  datatype Catalog<S> = Catalog(schema: Option<S>, version: nat, dirty: Option<S>, dirtyVersion: nat)

  datatype Event<S> =
    | InitSchema(schema: S, version: nat)
    | SetDirty(schema: S, version: nat)
    | Commit
    | Reject

  function Next<S>(c: Catalog<S>, e: Event<S>): Catalog<S>
  {
    match e
    case InitSchema(schema, version) =>
      var c1 := if c.version < version then c.(schema := Some(schema), version := version) else c;
      if c1.dirtyVersion <= version then c1.(dirty := None, dirtyVersion := 0) else c1
    case SetDirty(schema, version) =>
      if version >= c.dirtyVersion && version > c.version then c.(dirty := Some(schema), dirtyVersion := version) else c
    case Commit =>
      if c.dirtyVersion > c.version then Catalog(c.dirty, c.dirtyVersion, None, 0)
      else c.(dirty := None, dirtyVersion := 0)
    case Reject => c.(dirty := None, dirtyVersion := 0)
  }

  function Run<S>(c: Catalog<S>, es: seq<Event<S>>): Catalog<S>
  {
    if es == [] then c else Next(Run(c, es[..|es| - 1]), es[|es| - 1])
  }

  class Entry<S> {
    var schema: Option<S>
    var version: nat
    var dirty: Option<S>
    var dirtyVersion: nat

    constructor ()
      ensures View() == Catalog(None, 0, None, 0)
    {
      schema, version, dirty, dirtyVersion := None, 0, None, 0;
    }

    function View(): Catalog<S>
      reads this
    {
      Catalog(schema, version, dirty, dirtyVersion)
    }

    method InitSchema(s: S, versionTs: nat)
      requires versionTs > 0
      modifies this
      ensures View() == Next(old(View()), Event.InitSchema(s, versionTs)) && version >= versionTs
    {
      if version < versionTs {
        schema, version := Some(s), versionTs;
      }
      if dirtyVersion <= versionTs {
        dirty, dirtyVersion := None, 0;
      }
    }

    method SetDirtySchema(s: S, versionTs: nat)
      modifies this`dirty, this`dirtyVersion
      ensures View() == Next(old(View()), SetDirty(s, versionTs))
    {
      if versionTs >= dirtyVersion && versionTs > version {
        dirty, dirtyVersion := Some(s), versionTs;
      }
    }

    method CommitDirtySchema()
      modifies this
      ensures View() == Next(old(View()), Commit) && dirtyVersion == 0 && version >= old(version)
    {
      if dirtyVersion > version {
        schema, version := dirty, dirtyVersion;
        dirty := None;
      } else {
        dirty := None;
      }
      dirtyVersion := 0;
    }

    method RejectDirtySchema()
      modifies this`dirty, this`dirtyVersion
      ensures View() == Next(old(View()), Reject)
    {
      dirty, dirtyVersion := None, 0;
    }
  }

  // ---------------------------------------------------------------------------
  // Every run
  // ---------------------------------------------------------------------------

  /** Calls carry the schema of their version; `InitSchema` asserts a positive one. */
  ghost predicate Genuine<S(!new)>(schemaOf: nat -> S, e: Event<S>)
  {
    && (e.InitSchema? ==> e.version > 0 && e.schema == schemaOf(e.version))
    && (e.SetDirty? ==> e.schema == schemaOf(e.version))
  }

  /** Each version comes with its own schema, and a dirty one is newer than the committed one. */
  ghost predicate Inv<S(!new)>(schemaOf: nat -> S, c: Catalog<S>)
  {
    && (c.dirtyVersion == 0 || c.dirtyVersion > c.version)
    && c.schema == (if c.version == 0 then None else Some(schemaOf(c.version)))
    && c.dirty == (if c.dirtyVersion == 0 then None else Some(schemaOf(c.dirtyVersion)))
  }

  lemma {:induction false} NextKeeps<S(!new)>(schemaOf: nat -> S, c: Catalog<S>, e: Event<S>)
    requires Inv(schemaOf, c) && Genuine(schemaOf, e)
    ensures Inv(schemaOf, Next(c, e)) && c.version <= Next(c, e).version
  {
  }

  /** In every run from an empty entry, the committed version never falls and never gets the wrong schema. */
  lemma {:induction false} VersionsOnlyGrow<S(!new)>(schemaOf: nat -> S, es: seq<Event<S>>, n: nat)
    requires n <= |es| && forall i :: 0 <= i < |es| ==> Genuine(schemaOf, es[i])
    ensures var start := Catalog(None, 0, None, 0);
            Inv(schemaOf, Run(start, es)) && Run(start, es[..n]).version <= Run(start, es).version
  {
    if n == |es| {
      assert es[..n] == es;
      if n > 0 {
        VersionsOnlyGrow(schemaOf, es[..n - 1], 0);
        NextKeeps(schemaOf, Run(Catalog(None, 0, None, 0), es[..n - 1]), es[n - 1]);
      }
    } else {
      var init := es[..|es| - 1];
      VersionsOnlyGrow(schemaOf, init, n);
      assert init[..n] == es[..n];
      NextKeeps(schemaOf, Run(Catalog(None, 0, None, 0), init), es[|es| - 1]);
    }
  }

  // ---------------------------------------------------------------------------
  // One schema change, shard by shard
  // ---------------------------------------------------------------------------

  /** The calls the shards make for version `v`. */
  ghost predicate Change<S(!new)>(schemaOf: nat -> S, v: nat, es: seq<Event<S>>)
  {
    forall i :: 0 <= i < |es| ==> es[i] == SetDirty(schemaOf(v), v) || es[i] == Commit
  }

  ghost predicate Installs<S(!new)>(es: seq<Event<S>>)
  {
    exists i :: 0 <= i < |es| && es[i].SetDirty?
  }

  ghost predicate CommitsAfterInstall<S(!new)>(es: seq<Event<S>>)
  {
    exists i, j :: 0 <= i < j < |es| && es[i].SetDirty? && es[j].Commit?
  }

  lemma {:induction false} OneMore<S(!new)>(es: seq<Event<S>>)
    requires es != []
    ensures var init, e := es[..|es| - 1], es[|es| - 1];
            && (Installs(es) <==> Installs(init) || e.SetDirty?)
            && (CommitsAfterInstall(es) <==> CommitsAfterInstall(init) || (Installs(init) && e.Commit?))
  {
    var init, e := es[..|es| - 1], es[|es| - 1];
    assert forall i :: 0 <= i < |init| ==> init[i] == es[i];
    if Installs(init) && e.Commit? {
      var i :| 0 <= i < |init| && init[i].SetDirty?;
      assert es[i].SetDirty? && es[|es| - 1].Commit?;
    }
    if CommitsAfterInstall(init) {
      var i, j :| 0 <= i < j < |init| && init[i].SetDirty? && init[j].Commit?;
      assert es[i].SetDirty? && es[j].Commit?;
    }
  }

  /**
   However the shards' installs and commits of one version interleave, with any number of
   repetitions: as soon as some commit has followed some install the entry holds that
   version's schema and nothing dirty, and it never leaves it.
   */
  lemma {:induction false} CommitFollowsInstall<S(!new)>(schemaOf: nat -> S, c: Catalog<S>, v: nat, es: seq<Event<S>>)
    requires Inv(schemaOf, c) && c.version < v && c.dirtyVersion <= v && Change(schemaOf, v, es)
    ensures var r := Run(c, es);
            && Inv(schemaOf, r) && r.version <= v && r.dirtyVersion <= v
            && (Installs(es) ==> r.dirtyVersion == v || r.version == v)
            && (CommitsAfterInstall(es) ==> r == Catalog(Some(schemaOf(v)), v, None, 0))
  {
    if es != [] {
      var init, e := es[..|es| - 1], es[|es| - 1];
      CommitFollowsInstall(schemaOf, c, v, init);
      NextKeeps(schemaOf, Run(c, init), e);
      OneMore(es);
    }
  }
}
