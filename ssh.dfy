/**
 * The `ssh` and `scp` command lines: a target `[user@]hostname[:dir]` names the node to
 * reach, the user to log in as (the configured default when none is given) and, for scp,
 * the directory to copy into. The configured default user is the parameter `sshUser`.
 */
module Ssh {
  import opened Wrappers
  import opened Values
  import opened Strings

  /** What `interpret_ssh_args` returns: cluster, user, hostname and target directory. */
  datatype SshTarget = SshTarget(clusterName: string, username: string, hostname: string, targetDir: string)

  /** A string with exactly one `c` is the text before it, `c`, and the text after it. */
  lemma OneSeparator(s: string, c: char)
    requires Count(s, c) == 1
    ensures 0 <= Find(s, c)
    ensures c !in s[..Find(s, c)] && c !in s[Find(s, c) + 1..]
    ensures s == s[..Find(s, c)] + [c] + s[Find(s, c) + 1..]
  {
    var i := Find(s, c);
    assert i >= 0 by {
      CountZero(s, c);
    }
    CountRest(s, c, i);
    assert s == s[..i] + [c] + s[i + 1..];
  }

  /**
   * `(a, b) = s.split(c)`: the two pieces when `s` holds `c` exactly once; any other number
   * of pieces makes the unpacking raise a value error.
   */
  function SplitPair(s: string, c: char): (r: Result<(string, string), Error>)
    ensures r.Ok? <==> |Split(s, c)| == 2
    ensures r.Ok? <==> Count(s, c) == 1
    ensures r.Err? ==> r.error == ValueError
    ensures r.Ok? ==> Split(s, c) == [r.value.0, r.value.1]
    ensures r.Ok? ==> c !in r.value.0 && c !in r.value.1 && s == r.value.0 + [c] + r.value.1
  {
    assert |Split(s, c)| == Count(s, c) + 1 by {
      SplitLength(s, c);
    }
    if Count(s, c) != 1 then Err(ValueError)
    else
      var i := Find(s, c);
      assert 0 <= i && c !in s[..i] && c !in s[i + 1..] && s == s[..i] + [c] + s[i + 1..] by {
        OneSeparator(s, c);
      }
      assert Split(s, c) == [s[..i], s[i + 1..]] by {
        SplitOnce(s, c);
      }
      Ok((s[..i], s[i + 1..]))
  }

  /** Joining two pieces free of `c` around one `c` and unpacking the split gives them back. */
  lemma SplitPairJoin(a: string, b: string, c: char)
    requires c !in a && c !in b
    ensures SplitPair(a + [c] + b, c) == Ok((a, b))
  {
    var s := a + [c] + b;
    CountZero(a, c);
    CountZero(b, c);
    CountSplit(s, c, |a|);
    assert s[..|a|] == a;
    assert s[|a|..] == [c] + b;
    assert Count([c] + b, c) == 1 + Count(b, c) by {
      assert ([c] + b)[1..] == b;
    }
    var r := SplitPair(s, c);
    assert r.Ok?;
    FindAt(s, c, |a|);
    assert |r.value.0| == |a| by {
      var i := |r.value.0|;
      assert i < |s| && s[i] == c;
      assert forall j :: 0 <= j < i ==> s[j] != c by {
        forall j | 0 <= j < i
          ensures s[j] != c
        {
          assert s[j] == r.value.0[j];
        }
      }
      FindAt(s, c, i);
    }
    assert r.value.0 == s[..|a|];
    assert r.value.1 == s[|a| + 1..];
  }

  /** The part of the target after the user: everything after the first `@`, or the whole target. */
  function HostPart(target: string): (r: string)
    ensures '@' !in target ==> r == target
    ensures '@' in target ==> target == target[..Find(target, '@')] + "@" + r
  {
    var i := Find(target, '@');
    if i < 0 then target
    else
      assert target == target[..i] + [target[i]] + target[i + 1..];
      target[i + 1..]
  }

  /** `(username, hostname)`: split at the `@` when there is one, else the default user and the whole target. */
  function SplitUser(target: string, sshUser: string): (r: Result<(string, string), Error>)
    ensures r.Ok? <==> Count(target, '@') <= 1
    ensures r.Err? ==> r.error == ValueError
    ensures r.Ok? && '@' in target ==> '@' !in r.value.0 && target == r.value.0 + "@" + r.value.1
    ensures r.Ok? ==> r.value.1 == HostPart(target)
    ensures '@' !in target ==> r == Ok((sshUser, target))
  {
    CountZero(target, '@');
    if '@' in target then
      var p := SplitPair(target, '@');
      if p.Ok? then OneSeparator(target, '@'); p else p
    else Ok((sshUser, target))
  }

  /** `(hostname, target_dir)`: split at the `:` when there is one, else the whole text and no directory. */
  function SplitDir(host: string): (r: Result<(string, string), Error>)
    ensures r.Ok? <==> Count(host, ':') <= 1
    ensures r.Err? ==> r.error == ValueError
    ensures r.Ok? && ':' in host ==>
      ':' !in r.value.0 && ':' !in r.value.1 && host == r.value.0 + ":" + r.value.1
    ensures ':' !in host ==> r == Ok((host, ""))
  {
    CountZero(host, ':');
    if ':' in host then SplitPair(host, ':') else Ok((host, ""))
  }

  /**
   * `interpret_ssh_args`: an `@` separates the user from the hostname (without one the
   * user is the configured default); a `:` after it separates the hostname from the
   * target directory (without one the directory is empty). A second `@` in the target or a
   * second `:` in the hostname part makes the unpacking fail.
   */
  function InterpretSshArgs(clusterName: string, target: string, sshUser: string): (r: Result<SshTarget, Error>)
    ensures r.Ok? <==> Count(target, '@') <= 1 && Count(HostPart(target), ':') <= 1
    ensures r.Err? ==> r.error == ValueError
    ensures r.Ok? ==> r.value.clusterName == clusterName
    ensures r.Ok? && '@' in target ==>
      '@' !in r.value.username && target == r.value.username + "@" + HostPart(target)
    ensures r.Ok? && '@' !in target ==> r.value.username == sshUser
    ensures r.Ok? && ':' in HostPart(target) ==>
      ':' !in r.value.hostname && ':' !in r.value.targetDir &&
      HostPart(target) == r.value.hostname + ":" + r.value.targetDir
    ensures r.Ok? && ':' !in HostPart(target) ==> r.value.hostname == HostPart(target) && r.value.targetDir == ""
  {
    var user :- SplitUser(target, sshUser);
    var host :- SplitDir(user.1);
    Ok(SshTarget(clusterName, user.0, host.0, host.1))
  }

  /** The target text a parsed target is written as: `[user@]hostname[:dir]`. */
  function Unparse(t: SshTarget, withUser: bool, withDir: bool): string
  {
    UserText(t, withUser) + HostText(t, withDir)
  }

  /** `user@`, or nothing. */
  function UserText(t: SshTarget, withUser: bool): string
  {
    if withUser then t.username + "@" else ""
  }

  /** `hostname:dir`, or the hostname alone. */
  function HostText(t: SshTarget, withDir: bool): string
  {
    if withDir then t.hostname + ":" + t.targetDir else t.hostname
  }

  /** Parsing a target and writing it back out gives the same text. */
  lemma ParseUnparse(clusterName: string, target: string, sshUser: string)
    requires InterpretSshArgs(clusterName, target, sshUser).Ok?
    ensures Unparse(InterpretSshArgs(clusterName, target, sshUser).value, '@' in target, ':' in HostPart(target)) == target
  {
    var u := SplitUser(target, sshUser).value;
    var d := SplitDir(u.1).value;
    var t := SshTarget(clusterName, u.0, d.0, d.1);
    assert InterpretSshArgs(clusterName, target, sshUser).value == t;
    var withUser := '@' in target;
    var withDir := ':' in u.1;
    assert HostText(t, withDir) == u.1;
    if withUser {
      assert UserText(t, withUser) + u.1 == target;
    } else {
      assert u.1 == target;
    }
  }

  /**
   * Writing a target out and parsing it gives it back, when no part holds a separator it
   * should not (the user may hold a `:`, since only the hostname part is split on `:`).
   */
  lemma UnparseParse(t: SshTarget, withUser: bool, withDir: bool, sshUser: string)
    requires '@' !in t.username && '@' !in t.hostname && '@' !in t.targetDir
    requires ':' !in t.hostname && ':' !in t.targetDir
    requires !withUser ==> t.username == sshUser
    requires !withDir ==> t.targetDir == ""
    ensures InterpretSshArgs(t.clusterName, Unparse(t, withUser, withDir), sshUser) == Ok(t)
  {
    var rest := HostText(t, withDir);
    var target := Unparse(t, withUser, withDir);
    assert SplitDir(rest) == Ok((t.hostname, t.targetDir)) by {
      if withDir {
        assert rest == t.hostname + [':'] + t.targetDir;
        SplitPairJoin(t.hostname, t.targetDir, ':');
      } else {
        assert rest == t.hostname;
      }
    }
    assert SplitUser(target, sshUser) == Ok((t.username, rest)) by {
      assert '@' !in rest;
      if withUser {
        assert target == t.username + ['@'] + rest;
        SplitPairJoin(t.username, rest, '@');
      } else {
        assert target == rest;
      }
    }
  }

  /** `process_scp_cli_call`'s file list: a list is kept, a single value becomes a one-element list. */
  function ScpFiles(files: Value): (r: seq<Value>)
    ensures files.List? ==> r == files.items
    ensures !files.List? ==> r == [files]
  {
    if files.List? then files.items else [files]
  }

  /** Wrapping is idempotent: a list of files is passed through as it is. */
  lemma ScpFilesIdempotent(files: Value)
    ensures ScpFiles(List(ScpFiles(files))) == ScpFiles(files)
  {
  }

  /** `process_scp_cli_call`: the interpreted target and the files to copy. */
  function ScpCall(clusterName: string, target: string, files: Value, sshUser: string): (r: Result<(SshTarget, seq<Value>), Error>)
    ensures r.Ok? <==> InterpretSshArgs(clusterName, target, sshUser).Ok?
    ensures r.Ok? ==> r.value.0 == InterpretSshArgs(clusterName, target, sshUser).value
    ensures r.Ok? ==> forall f :: f in r.value.1 <==> (if files.List? then f in files.items else f == files)
    ensures r.Ok? ==> r.value.1 == ScpFiles(files)
  {
    var t :- InterpretSshArgs(clusterName, target, sshUser);
    Ok((t, ScpFiles(files)))
  }
}

/** Targets as a user types them. */
module SshExamples {
  import opened Wrappers
  import opened Values
  import opened Strings
  import opened Ssh

  lemma UserHostAndDir()
    ensures InterpretSshArgs("mycluster", "root@node001:/tmp", "dcluster") ==
      Ok(SshTarget("mycluster", "root", "node001", "/tmp"))
  {
    var t := SshTarget("mycluster", "root", "node001", "/tmp");
    assert UserText(t, true) == "root@";
    assert HostText(t, true) == "node001:/tmp";
    assert Unparse(t, true, true) == "root@" + "node001:/tmp";
    assert "root@" + "node001:/tmp" == "root@node001:/tmp";
    UnparseParse(t, true, true, "dcluster");
  }

  lemma HostOnly()
    ensures InterpretSshArgs("mycluster", "head", "dcluster") == Ok(SshTarget("mycluster", "dcluster", "head", ""))
  {
    assert '@' !in "head" && ':' !in "head";
  }

  lemma TwoUsers()
    ensures InterpretSshArgs("mycluster", "a@b@head", "dcluster") == Err(ValueError)
  {
    assert Count("a@b@head", '@') == 2;
  }

  lemma TwoDirs()
    ensures InterpretSshArgs("mycluster", "head:/a:/b", "dcluster") == Err(ValueError)
  {
    assert Count("head:/a:/b", '@') == 0;
    assert Count("head:/a:/b", ':') == 2;
  }
}
