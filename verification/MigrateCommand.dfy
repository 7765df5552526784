/** The `migrate` command over a list of generated migrations (lib/cluster/migration/migration.go). */
module MigrateCommand {
  import opened Text
  import opened Migrations

  /** What a command finds before the migrations come into play: no directory of migrations, no write
      connection, no way to open the directory or the server's records, or all of them. */
  datatype Setup = NoDirectory | NoConnection | NoSource | Ready

  /** The migration tool at work on one server: it remembers how many migrations are applied, and
      refuses to go on after a failure. */
  class Migrator {
    const ms: seq<Migration>
    var server: Server
    var applied: nat
    var dirty: bool

    constructor (ms: seq<Migration>, server: Server)
      ensures this.ms == ms && this.server == server && applied == 0 && !dirty
    {
      this.ms := ms;
      this.server := server;
      applied := 0;
      dirty := false;
    }

    /** The server is what the first `applied` ups make of `base`. */
    ghost predicate AppliedTo(base: Server)
      reads this
    {
      applied <= |ms| && RunUps(ms[..applied], base) == Some(server)
    }

    /** Applies every migration that is pending; having none left, or no directory of them, is no error, but a
        directory without a migration is. */
    method Up(ghost base: Server, setup: Setup) returns (err: bool)
      requires AppliedTo(base)
      modifies this
      ensures AppliedTo(base) && applied >= old(applied)
      ensures !setup.Ready? || old(dirty) ==>
                server == old(server) && applied == old(applied) && dirty == old(dirty)
      ensures err <==> setup.NoConnection? || setup.NoSource? || (setup.Ready? && (dirty || ms == []))
      ensures setup.Ready? && !err ==> applied == |ms| && RunUps(ms, base) == Some(server)
      ensures dirty && !old(dirty) ==> applied < |ms| && Migrations.Up(ms[applied], server) == None
      ensures setup.Ready? && err ==> RunUps(ms, base) == None || old(dirty) || ms == []
    {
      if setup.NoDirectory? {
        return false;
      }
      if setup.NoConnection? || setup.NoSource? {
        return true;
      }
      if dirty || ms == [] {
        return true;
      }
      while applied < |ms|
        invariant AppliedTo(base) && applied >= old(applied) && !dirty
      {
        assert ms[..applied + 1][..applied] == ms[..applied];
        var next := Migrations.Up(ms[applied], server);
        if next.None? {
          PrefixFails(ms, base, applied + 1);
          dirty := true;
          return true;
        }
        server := next.value;
        applied := applied + 1;
      }
      assert ms[..|ms|] == ms;
      err := false;
    }

    /** Reverts every migration that is applied, last first, although the command's help speaks of the
        last one only. Reading the version afterwards may still fail. */
    method Down(setup: Setup, versionFails: bool) returns (err: bool)
      requires applied <= |ms|
      modifies this
      ensures applied <= old(applied)
      ensures !setup.Ready? || old(dirty) ==>
                server == old(server) && applied == old(applied) && dirty == old(dirty)
      ensures err <==> setup.NoConnection? || setup.NoSource? || (setup.Ready? && (dirty || versionFails))
      ensures setup.Ready? && !dirty ==> applied == 0 && RunDowns(ms[..old(applied)], old(server)) == Some(server)
      ensures dirty && !old(dirty) ==> applied > 0 && Migrations.Down(ms[applied - 1], server) == None
      ensures RunDowns(ms[..old(applied)], old(server)) == RunDowns(ms[..applied], server)
    {
      if setup.NoDirectory? {
        return false;
      }
      if setup.NoConnection? || setup.NoSource? {
        return true;
      }
      if dirty {
        return true;
      }
      while applied > 0
        invariant applied <= old(applied) && !dirty
        invariant RunDowns(ms[..old(applied)], old(server)) == RunDowns(ms[..applied], server)
      {
        assert ms[..applied][..applied - 1] == ms[..applied - 1];
        var next := Migrations.Down(ms[applied - 1], server);
        if next.None? {
          dirty := true;
          return true;
        }
        server := next.value;
        applied := applied - 1;
      }
      err := versionFails;
    }

    /** The sequence of the smoke test: up, down, up, down, up. */
    method Cycle() returns (err: bool)
      requires applied == 0 && !dirty && WellFormedServer(server) && Harmless(ms, server)
      modifies this
      ensures !err <==> ms != [] && RunUps(ms, old(server)).Some?
      ensures !err ==> RunUps(ms, old(server)) == Some(server) && applied == |ms| && !dirty
    {
      ghost var base := server;
      assert ms[..0] == [] && ms[..|ms|] == ms;
      for round := 0 to 2
        invariant applied == 0 && !dirty && server == base && AppliedTo(base)
      {
        err := Up(base, Ready);
        if err {
          return;
        }
        DownsUndoUpsIff(ms, base, server);
        err := Down(Ready, false);
      }
      err := Up(base, Ready);
    }
  }
}
