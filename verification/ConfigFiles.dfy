/** Sending a changed config file to the monitors and scrapers that it concerns. */
module ConfigFiles {
  import opened Options
  import opened Messages
  import opened Lifecycle
  import opened SocketNames
  import opened Termination

  // ------------------------------------------------------------- where a file lies

  /** The component between the last two separators of a path; None when it has fewer. */
  function SubDirOf(path: string): Option<string> {
    var last := LastIndexOf(path, '/');
    if last.None? then None
    else
      var before := LastIndexOf(path[..last.value], '/');
      if before.None? then None else Some(path[before.value + 1..last.value])
  }

  /** The backward scan. Its index is unsigned, so that it would wrap around and look outside the
      path if it ever passed the first character; None stands for that. */
  method ScanBackwards(fullPath: string) returns (configSubDir: Option<string>)
    ensures configSubDir == SubDirOf(fullPath)
  {
    var i, lastSlash, flag := |fullPath|, 0, false;
    assert fullPath[..i] == fullPath;
    while 0 < i
      invariant i <= |fullPath| && (flag ==> i <= lastSlash < |fullPath|)
      invariant !flag ==> LastIndexOf(fullPath, '/') == LastIndexOf(fullPath[..i], '/')
      invariant flag ==> LastIndexOf(fullPath, '/') == Some(lastSlash)
      invariant flag ==> LastIndexOf(fullPath[..lastSlash], '/') == LastIndexOf(fullPath[..i], '/')
    {
      i := i - 1;
      assert fullPath[..i + 1][..i] == fullPath[..i];
      if fullPath[i] == '/' {
        if !flag {
          lastSlash := i;
          flag := true;
        } else {
          return Some(fullPath[i + 1..lastSlash]);
        }
      }
    }
    return None;
  }

  function Separators(path: string): nat {
    if path == "" then 0 else Separators(path[..|path| - 1]) + if path[|path| - 1] == '/' then 1 else 0
  }

  lemma {:induction false} SeparatorsUntil(path: string)
    ensures LastIndexOf(path, '/').None? ==> Separators(path) == 0
    ensures LastIndexOf(path, '/').Some? ==> Separators(path) == Separators(path[..LastIndexOf(path, '/').value]) + 1
  {
    if path != "" {
      var n := |path| - 1;
      SeparatorsUntil(path[..n]);
      var last := LastIndexOf(path, '/');
      if last.Some? && last.value < n {
        assert path[..n][..last.value] == path[..last.value];
      }
    }
  }

  /** The scan stays inside the path exactly when the path has at least two separators. */
  lemma ScanStaysInside(path: string)
    ensures SubDirOf(path).Some? <==> Separators(path) >= 2
  {
    SeparatorsUntil(path);
    var last := LastIndexOf(path, '/');
    if last.Some? {
      SeparatorsUntil(path[..last.value]);
    }
  }

  /** It finds the directory that a file lies in: `sub`, for a file of any name in a directory
      `sub` of any other, and nothing else. */
  lemma SubDirOfFile(dir: string, sub: string, file: string)
    requires '/' !in sub && '/' !in file
    ensures SubDirOf(dir + "/" + sub + "/" + file) == Some(sub)
  {
    var before := dir + "/" + sub;
    var path := before + "/" + file;
    assert path[|before|] == '/' && path[|before| + 1..] == file;
    LastIndexExactly(path, '/', |before|);
    assert path[..|before|] == before;
    assert before[|dir|] == '/' && before[|dir| + 1..] == sub;
    LastIndexExactly(before, '/', |dir|);
    assert path[|dir| + 1..|before|] == sub;
  }

  lemma SubDirOfOnlyFiles(path: string) returns (dir: string, file: string)
    requires SubDirOf(path).Some?
    ensures '/' !in SubDirOf(path).value && '/' !in file
    ensures path == dir + "/" + SubDirOf(path).value + "/" + file
  {
    var last := LastIndexOf(path, '/').value;
    var before := LastIndexOf(path[..last], '/').value;
    LastIndexExactly(path, '/', last);
    LastIndexExactly(path[..last], '/', before);
    dir, file := path[..before], path[last + 1..];
    assert path[..last][before + 1..] == path[before + 1..last];
    assert path == dir + [path[before]] + path[before + 1..last] + [path[last]] + file;
    assert [path[before]] == "/" && [path[last]] == "/";
  }

  // ------------------------------------------------------------- who is sent what

  datatype Content = Webhooks | Whitelist | Blacklist | Config

  /** `Default` is the command that a fresh command object has. */
  datatype ConfigCommand = Default | SetCommon(content: Content) | SetSpecific(content: Content)

  /** A parsed config file: the members of the object in their order, if it is one. */
  datatype File = Unreadable | NoObject | Object(members: seq<(string, string)>)

  /** A command on its way to a monitor or scraper. */
  datatype Delivery = Delivery(key: Key, endpoint: string, command: ConfigCommand, payload: string)

  function ContentOf(filename: string): Option<Content> {
    if filename == "webhooks.json" then Some(Webhooks)
    else if filename == "whitelists.json" then Some(Whitelist)
    else if filename == "blacklists.json" then Some(Blacklist)
    else if filename == "configs.json" then Some(Config)
    else None
  }

  function CommandFor(filename: string, common: bool): ConfigCommand {
    match ContentOf(filename)
    case None => Default
    case Some(content) => if common then SetCommon(content) else SetSpecific(content)
  }

  /** The kinds that a config directory concerns. */
  predicate Concerns(configSubDir: string, kind: Kind) {
    configSubDir == "common" || configSubDir == if kind.Monitor? then "monitors" else "scrapers"
  }

  /** A config is sent to what has both a process and a socket. */
  predicate Reachable(stored: map<Key, Stored>, k: Key) {
    k in stored && stored[k].process.Some? && stored[k].endpoint.Some?
  }

  method SendCmdIfProcess(stored: map<Key, Stored>, k: Key, command: ConfigCommand, payload: string)
    returns (sent: seq<Delivery>)
    ensures sent == if Reachable(stored, k) then [Delivery(k, stored[k].endpoint.value, command, payload)] else []
  {
    sent := [];
    if k in stored {
      if stored[k].process.Some? && stored[k].endpoint.Some? {
        sent := [Delivery(k, stored[k].endpoint.value, command, payload)];
      }
    }
  }

  /** Exactly what the members `members` of a file under `configSubDir` are to cause. */
  ghost predicate Wanted(d: Delivery, stored: map<Key, Stored>, configSubDir: string, command: ConfigCommand,
                         members: seq<(string, string)>)
  {
    && Concerns(configSubDir, d.key.kind) && Reachable(stored, d.key)
    && d.endpoint == stored[d.key].endpoint.value && d.command == command
    && (d.key.name, d.payload) in members
  }

  /** The file that holds a content. */
  function FileFor(content: Content): string {
    match content
    case Webhooks => "webhooks.json"
    case Whitelist => "whitelists.json"
    case Blacklist => "blacklists.json"
    case Config => "configs.json"
  }

  /** A command sets, for everyone or for one kind, what the file holds. */
  ghost predicate Sets(command: ConfigCommand, filename: string, common: bool) {
    match command
    case SetCommon(content) => common && filename == FileFor(content)
    case SetSpecific(content) => !common && filename == FileFor(content)
    case Default => forall content :: filename != FileFor(content)
  }

  lemma CommandExactly(command: ConfigCommand, filename: string, common: bool)
    ensures command == CommandFor(filename, common) <==> Sets(command, filename, common)
  {
    match ContentOf(filename)
    case None =>
    case Some(content) => assert filename == FileFor(content);
  }

  /** What is wanted: each member of the file is sent to the monitor and to the scraper of its name,
      as far as the directory concerns them, if there is one with both a process and a socket. */
  lemma WantedExactly(d: Delivery, stored: map<Key, Stored>, configSubDir: string, filename: string,
                      members: seq<(string, string)>)
    ensures Wanted(d, stored, configSubDir, CommandFor(filename, configSubDir == "common"), members) <==>
            && (d.key.name, d.payload) in members && d.key in stored
            && stored[d.key].process != None && stored[d.key].endpoint == Some(d.endpoint)
            && Sets(d.command, filename, configSubDir == "common")
            && (configSubDir != "common" ==> configSubDir == match d.key.kind
                                                             case Monitor => "monitors"
                                                             case Scraper => "scrapers")
  {
    CommandExactly(d.command, filename, configSubDir == "common");
  }

  /** The member names of an object are distinct. */
  predicate ProperObject(members: seq<(string, string)>) {
    forall i, j :: 0 <= i < j < |members| ==> members[i].0 != members[j].0
  }

  /** One member of the object: it goes to the monitor, the scraper, or both. */
  method SendMember(stored: map<Key, Stored>, configSubDir: string, command: ConfigCommand, member: (string, string))
    returns (sent: seq<Delivery>)
    ensures Distinct(sent) && forall d :: d in sent <==> Wanted(d, stored, configSubDir, command, [member])
  {
    sent := [];
    if configSubDir == "monitors" || configSubDir == "common" {
      sent := SendCmdIfProcess(stored, Key(Monitor, member.0), command, member.1);
    }
    if configSubDir == "scrapers" || configSubDir == "common" {
      var more := SendCmdIfProcess(stored, Key(Scraper, member.0), command, member.1);
      sent := sent + more;
    }
    forall d | Wanted(d, stored, configSubDir, command, [member])
      ensures d in sent
    {
      assert (d.key.name, d.payload) == member;
      match d.key.kind
      case Monitor => assert d.key == Key(Monitor, member.0);
      case Scraper => assert d.key == Key(Scraper, member.0);
    }
    forall d | d in sent
      ensures Wanted(d, stored, configSubDir, command, [member])
    {
      assert (d.key.name, d.payload) == member && member in [member];
    }
  }

  lemma DistinctTogether(some: seq<Delivery>, more: seq<Delivery>)
    requires Distinct(some) && Distinct(more) && forall d, e :: d in some && e in more ==> d.key.name != e.key.name
    ensures Distinct(some + more)
  {
    forall i, j | 0 <= i < j < |some + more|
      ensures (some + more)[i] != (some + more)[j]
    {
      if i < |some| <= j {
        assert some[i] in some && more[j - |some|] in more;
      }
    }
  }

  method ParseAndSendConfigs(stored: map<Key, Stored>, fullPath: string, filename: string, file: File)
    returns (sent: seq<Delivery>)
    requires file.Object? ==> ProperObject(file.members) && SubDirOf(fullPath).Some?
    ensures !file.Object? ==> sent == []
    ensures file.Object? ==>
              var sub := SubDirOf(fullPath).value;
              && Distinct(sent)
              && forall d :: d in sent <==> Wanted(d, stored, sub, CommandFor(filename, sub == "common"), file.members)
  {
    sent := [];
    if !file.Object? {
      return;
    }
    var scanned := ScanBackwards(fullPath);
    var configSubDir := scanned.value;
    if configSubDir == "" {
      return;
    }
    var command, members := CommandFor(filename, configSubDir == "common"), file.members;
    for i := 0 to |members|
      invariant Distinct(sent)
      invariant forall d :: d in sent <==> Wanted(d, stored, configSubDir, command, members[..i])
    {
      var more := SendMember(stored, configSubDir, command, members[i]);
      forall d, e | d in sent && e in more
        ensures d.key.name != e.key.name
      {
        assert (d.key.name, d.payload) in members[..i] && (e.key.name, e.payload) in [members[i]];
      }
      DistinctTogether(sent, more);
      assert members[..i + 1] == members[..i] + [members[i]];
      sent := sent + more;
    }
    assert members[..|members|] == members;
  }
}
