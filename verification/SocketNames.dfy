/** How the name of a socket file tells which monitor or scraper it belongs to. */
module SocketNames {
  import opened Options
  import opened Messages
  import opened Lifecycle

  /** The position of the last `c` in `s`. */
  function LastIndexOf(s: string, c: char): (r: Option<nat>)
    ensures r.Some? ==> r.value < |s| && s[r.value] == c
  {
    if s == "" then None
    else
      var n := |s| - 1;
      if s[n] == c then Some(n) else LastIndexOf(s[..n], c)
  }

  /** It is the only one behind which there is no other. */
  lemma {:induction false} LastIndexExactly(s: string, c: char, i: nat)
    requires i < |s|
    ensures LastIndexOf(s, c) == Some(i) <==> s[i] == c && c !in s[i + 1..]
  {
    var n := |s| - 1;
    if i < n {
      LastIndexExactly(s[..n], c, i);
      assert s[i + 1..] == s[..n][i + 1..] + [s[n]];
    }
  }

  /** What follows the last separator of a path. */
  function FileName(path: string): string {
    var slash := LastIndexOf(path, '/');
    if slash.None? then path else path[slash.value + 1..]
  }

  lemma FileNameExactly(dir: string, file: string)
    requires '/' !in file
    ensures FileName(dir + "/" + file) == FileName(file) == file
  {
    var path := dir + "/" + file;
    assert path[|dir|] == '/' && path[|dir| + 1..] == file;
    LastIndexExactly(path, '/', |dir|);
  }

  /** The class that a socket name stands for; None when it is not one of ours. */
  function KeyOf(socketName: string): Option<Key> {
    var dot := LastIndexOf(socketName, '.');
    if dot.None? then None
    else
      var prefix, className := socketName[..dot.value], socketName[dot.value + 1..];
      if prefix == "Monitor" then Some(Key(Monitor, className))
      else if prefix == "Scraper" then Some(Key(Scraper, className))
      else None
  }

  /** A name stands for a class exactly when it is the kind, a dot and the class name, and the
      class name has no dot: a class whose name has one is never recognised by its socket. */
  lemma KeyOfExactly(socketName: string, k: Key)
    ensures KeyOf(socketName) == Some(k) <==> socketName == KindName(k.kind) + "." + k.name && '.' !in k.name
  {
    var prefix, dot := KindName(k.kind), LastIndexOf(socketName, '.');
    if socketName == prefix + "." + k.name {
      assert socketName[|prefix|] == '.' && socketName[|prefix| + 1..] == k.name && socketName[..|prefix|] == prefix;
      LastIndexExactly(socketName, '.', |prefix|);
    }
    if dot.Some? {
      LastIndexExactly(socketName, '.', dot.value);
      assert socketName == socketName[..dot.value] + [socketName[dot.value]] + socketName[dot.value + 1..];
      assert [socketName[dot.value]] == ".";
    }
  }
}
