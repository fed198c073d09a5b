// Resolving each list's notification ids into notifiers
// (pkg/backy/notification.go: SetupNotify, setupMail, setupMatrix). The
// transports themselves are not modelled: a notifier is the value its
// constructor is given, and matrix.New's failure is an oracle.
module Notification {
  import opened Wrappers
  import opened Strs
  import opened BackyTypes
  import Config

  /** setupMail: the sender, the SMTP address Host:Port and the receivers To. */
  function SetupMail(conf: MailConfig): (r: Service)
    ensures r.Mail? && r.sender == conf.senderAddress && r.receivers == conf.to
  {
    Mail(conf.senderAddress, conf.host + ":" + conf.port, conf.to)
  }

  /** The mail notifier dials the configured host at the configured port. */
  lemma MailDialsHostPort(conf: MailConfig)
    requires ':' !in conf.port
    ensures SplitHostPort(SetupMail(conf).address) == Some(HostPort(conf.host, conf.port))
  {
    SplitJoinedHostPort(conf.host, conf.port);
  }

  /** setupMatrix, when matrix.New succeeds. */
  function SetupMatrix(conf: MatrixConfig): Service
  {
    Matrix(conf.homeserver, conf.roomId, conf.accessToken, conf.userId)
  }

  /** Every id of the list holds a ".". */
  predicate Dotted(ids: seq<string>)
  {
    forall j :: 0 <= j < |ids| ==> '.' in ids[j]
  }

  /** The service of an id: its first dot-separated segment. */
  function Kind(id: string): string
    requires '.' in id
  {
    SplitHasTwo(id, '.');
    Split(id, '.')[0]
  }

  /** The id within the service: the second segment. */
  function Key(id: string): string
    requires '.' in id
  {
    SplitHasTwo(id, '.');
    Split(id, '.')[1]
  }

  /**
   * The notifier one id stands for: the service is the text before the
   * first ".", the id the text between it and the next. A missing id, a
   * failing matrix setup or an unknown service gives none.
   */
  function ServiceOf(id: string, mail: map<string, MailConfig>, matrix: map<string, MatrixConfig>,
                     matrixFails: MatrixConfig -> bool): (r: Option<Service>)
    requires '.' in id
    ensures var kind := Kind(id); var key := Key(id);
      (r.Some? && r.value.Mail? <==> kind == "mail" && key in mail)
      && (r.Some? && r.value.Matrix? <==> kind == "matrix" && key in matrix && !matrixFails(matrix[key]))
      && (r.Some? && r.value.Mail? ==> r.value == SetupMail(mail[key]))
      && (r.Some? && r.value.Matrix? ==> r.value == SetupMatrix(matrix[key]))
  {
    var kind := Kind(id);
    var key := Key(id);
    if kind == "mail" then
      if key in mail then Some(SetupMail(mail[key])) else None
    else if kind == "matrix" then
      if key in matrix && !matrixFails(matrix[key]) then Some(SetupMatrix(matrix[key])) else None
    else None
  }

  /** The services and the id are the first two dot-separated segments, whatever follows. */
  lemma IdSegments(kind: string, key: string, rest: string)
    requires '.' !in kind && '.' !in key && (rest == "" || rest[0] == '.')
    ensures var id := kind + "." + key + rest; '.' in id && Kind(id) == kind && Key(id) == key
  {
    var id := kind + "." + key + rest;
    var tail := key + rest;
    assert id == kind + ['.'] + tail;
    CutFirst(kind, tail, '.');
    FirstField(key, rest, '.');
  }

  /** Cutting at a first separator: the part before it, then the split of the rest. */
  lemma CutFirst(a: string, b: string, c: char)
    requires c !in a
    ensures c in a + [c] + b && Split(a + [c] + b, c) == [a] + Split(b, c)
  {
    var s := a + [c] + b;
    assert s[..|a|] == a && s[|a|] == c;
    SplitAt(s, c, |a|);
    assert s[|a| + 1..] == b;
  }

  /** The first field of a string that holds no separator before `rest`. */
  lemma FirstField(key: string, rest: string, c: char)
    requires c !in key && (rest == "" || rest[0] == c)
    ensures Split(key + rest, c)[0] == key
  {
    if rest == "" {
      assert key + rest == key;
      SplitWithout(key, c);
    } else {
      assert key + rest == key + [c] + rest[1..];
      CutFirst(key, rest[1..], c);
    }
  }

  /** "mail.<id>" resolves to that mail id's notifier iff the id is configured. */
  lemma MailIdResolves(key: string, mail: map<string, MailConfig>, matrix: map<string, MatrixConfig>, matrixFails: MatrixConfig -> bool)
    requires '.' !in key
    ensures '.' in "mail." + key
    ensures ServiceOf("mail." + key, mail, matrix, matrixFails) == if key in mail then Some(SetupMail(mail[key])) else None
  {
    assert ("mail." + key)[4] == '.';
    IdSegments("mail", key, "");
    assert "mail" + "." + key + "" == "mail." + key;
  }

  /** The values present in a sequence of options, in order. */
  function Somes<T>(xs: seq<Option<T>>): (r: seq<T>)
    ensures |r| <= |xs|
  {
    if |xs| == 0 then []
    else Somes(xs[..|xs| - 1]) + (if xs[|xs| - 1].Some? then [xs[|xs| - 1].value] else [])
  }

  lemma {:induction false} SomesAppend<T>(a: seq<Option<T>>, b: seq<Option<T>>)
    ensures Somes(a + b) == Somes(a) + Somes(b)
  {
    if |b| == 0 {
      assert a + b == a;
    } else {
      var n := |b| - 1;
      assert (a + b)[..|a + b| - 1] == a + b[..n];
      assert (a + b)[|a + b| - 1] == b[n];
      SomesAppend(a, b[..n]);
    }
  }

  lemma {:induction false} SomesSound<T>(xs: seq<Option<T>>)
    ensures forall x :: x in Somes(xs) ==> exists j :: 0 <= j < |xs| && xs[j] == Some(x)
  {
    if |xs| > 0 {
      var n := |xs| - 1;
      SomesSound(xs[..n]);
      forall x | x in Somes(xs) ensures exists j :: 0 <= j < |xs| && xs[j] == Some(x) {
        if x in Somes(xs[..n]) {
          var j :| 0 <= j < n && xs[..n][j] == Some(x);
          assert xs[j] == Some(x);
        } else {
          assert xs[n] == Some(x);
        }
      }
    }
  }

  lemma {:induction false} SomesComplete<T>(xs: seq<Option<T>>)
    ensures forall j :: 0 <= j < |xs| && xs[j].Some? ==> xs[j].value in Somes(xs)
  {
    if |xs| > 0 {
      var n := |xs| - 1;
      SomesComplete(xs[..n]);
      assert forall j :: 0 <= j < n ==> xs[..n][j] == xs[j];
    }
  }

  /** What each id of the list resolves to. */
  function Resolutions(ids: seq<string>, mail: map<string, MailConfig>, matrix: map<string, MatrixConfig>,
                       matrixFails: MatrixConfig -> bool): (r: seq<Option<Service>>)
    requires Dotted(ids)
    ensures |r| == |ids| && forall j :: 0 <= j < |ids| ==> r[j] == ServiceOf(ids[j], mail, matrix, matrixFails)
  {
    seq(|ids|, j requires 0 <= j < |ids| => ServiceOf(ids[j], mail, matrix, matrixFails))
  }

  /** The notifiers of a list, in id order. */
  function ServicesOf(ids: seq<string>, mail: map<string, MailConfig>, matrix: map<string, MatrixConfig>,
                      matrixFails: MatrixConfig -> bool): (r: seq<Service>)
    requires Dotted(ids)
    ensures |r| <= |ids|
  {
    Somes(Resolutions(ids, mail, matrix, matrixFails))
  }

  /** Resolution is per id: the notifiers of two id lists are those of each, in order. */
  lemma ServicesOfAppend(a: seq<string>, b: seq<string>, mail: map<string, MailConfig>,
                         matrix: map<string, MatrixConfig>, matrixFails: MatrixConfig -> bool)
    requires Dotted(a) && Dotted(b)
    ensures Dotted(a + b)
    ensures ServicesOf(a + b, mail, matrix, matrixFails) == ServicesOf(a, mail, matrix, matrixFails) + ServicesOf(b, mail, matrix, matrixFails)
  {
    DottedConcat(a, b);
    var ra, rb := Resolutions(a, mail, matrix, matrixFails), Resolutions(b, mail, matrix, matrixFails);
    assert Resolutions(a + b, mail, matrix, matrixFails) == ra + rb;
    SomesAppend(ra, rb);
  }

  lemma DottedConcat(a: seq<string>, b: seq<string>)
    requires Dotted(a) && Dotted(b)
    ensures Dotted(a + b)
  {
    forall j | 0 <= j < |a + b| ensures '.' in (a + b)[j] {
      if j >= |a| { assert (a + b)[j] == b[j - |a|]; }
    }
  }

  /** Every notifier comes from one of the list's ids. */
  lemma ServicesSound(ids: seq<string>, mail: map<string, MailConfig>, matrix: map<string, MatrixConfig>,
                      matrixFails: MatrixConfig -> bool)
    requires Dotted(ids)
    ensures forall s :: s in ServicesOf(ids, mail, matrix, matrixFails) ==>
              exists j :: 0 <= j < |ids| && ServiceOf(ids[j], mail, matrix, matrixFails) == Some(s)
  {
    var rs := Resolutions(ids, mail, matrix, matrixFails);
    SomesSound(rs);
    forall s | s in ServicesOf(ids, mail, matrix, matrixFails)
      ensures exists j :: 0 <= j < |ids| && ServiceOf(ids[j], mail, matrix, matrixFails) == Some(s)
    {
      var j :| 0 <= j < |rs| && rs[j] == Some(s);
      assert ServiceOf(ids[j], mail, matrix, matrixFails) == Some(s);
    }
  }

  /** Every id that resolves contributes its notifier. */
  lemma ServicesComplete(ids: seq<string>, mail: map<string, MailConfig>, matrix: map<string, MatrixConfig>,
                         matrixFails: MatrixConfig -> bool)
    requires Dotted(ids)
    ensures forall j :: 0 <= j < |ids| && ServiceOf(ids[j], mail, matrix, matrixFails).Some? ==>
              ServiceOf(ids[j], mail, matrix, matrixFails).value in ServicesOf(ids, mail, matrix, matrixFails)
  {
    SomesComplete(Resolutions(ids, mail, matrix, matrixFails));
  }

  /** The notifiers after one more id: its notifier, if it resolves, follows. */
  lemma ServicesOfSnoc(ids: seq<string>, id: string, mail: map<string, MailConfig>,
                       matrix: map<string, MatrixConfig>, matrixFails: MatrixConfig -> bool)
    requires Dotted(ids) && '.' in id
    ensures Dotted(ids + [id])
    ensures var s := ServiceOf(id, mail, matrix, matrixFails);
      ServicesOf(ids + [id], mail, matrix, matrixFails) == ServicesOf(ids, mail, matrix, matrixFails) + (if s.Some? then [s.value] else [])
  {
    ServicesOfAppend(ids, [id], mail, matrix, matrixFails);
    var one := Resolutions([id], mail, matrix, matrixFails);
    assert one == [] + [one[0]];
  }

  /** One dotted id of SetupNotify: its notifier, if it resolves to one, is appended. */
  method AddService(services: seq<Service>, id: string, mail: map<string, MailConfig>, matrix: map<string, MatrixConfig>,
                    matrixFails: MatrixConfig -> bool) returns (services': seq<Service>)
    requires '.' in id
    ensures var s := ServiceOf(id, mail, matrix, matrixFails);
      services' == services + (if s.Some? then [s.value] else [])
  {
    SplitHasTwo(id, '.');
    var confSplit := Split(id, '.');
    var confType := confSplit[0];
    var confId := confSplit[1];
    services' := services;
    if confType == "mail" {
      if confId in mail {
        services' := services + [SetupMail(mail[confId])];
      }
    } else if confType == "matrix" {
      if confId in matrix && !matrixFails(matrix[confId]) {
        services' := services + [SetupMatrix(matrix[confId])];
      }
    }
  }

  /**
   * The inner loop of SetupNotify over one list's ids: false when an id
   * has no "." (the program exits there), else the notifiers.
   */
  method ResolveIds(ids: seq<string>, mail: map<string, MailConfig>, matrix: map<string, MatrixConfig>,
                    matrixFails: MatrixConfig -> bool) returns (services: seq<Service>, ok: bool)
    ensures ok <==> Dotted(ids)
    ensures ok ==> services == ServicesOf(ids, mail, matrix, matrixFails)
  {
    services := [];
    var i := 0;
    while i < |ids|
      invariant 0 <= i <= |ids|
      invariant Dotted(ids[..i])
      invariant services == ServicesOf(ids[..i], mail, matrix, matrixFails)
    {
      var id := ids[i];
      assert ids[..i + 1] == ids[..i] + [id];
      if '.' !in id {
        return services, false;
      }
      ServicesOfSnoc(ids[..i], id, mail, matrix, matrixFails);
      services := AddService(services, id, mail, matrix, matrixFails);
      i := i + 1;
    }
    assert ids[..i] == ids;
    ok := true;
  }

  /** A list whose NotifyConfig holds the notifiers of its ids. */
  predicate Configured(l: CmdList, mail: map<string, MailConfig>, matrix: map<string, MatrixConfig>, matrixFails: MatrixConfig -> bool)
    reads l
  {
    Dotted(l.notifications) && l.notifyConfig == Some(ServicesOf(l.notifications, mail, matrix, matrixFails))
  }

  /** One list of SetupNotify: its ids are resolved, and its notifiers set unless an id has no ".". */
  method ConfigureList(l: CmdList, mail: map<string, MailConfig>, matrix: map<string, MatrixConfig>,
                       matrixFails: MatrixConfig -> bool) returns (ok: bool)
    modifies l`notifyConfig
    ensures ok <==> Dotted(l.notifications)
    ensures ok ==> Configured(l, mail, matrix, matrixFails)
    ensures !ok ==> l.notifyConfig == old(l.notifyConfig)
  {
    var services;
    services, ok := ResolveIds(l.notifications, mail, matrix, matrixFails);
    if ok {
      l.notifyConfig := Some(services);
    }
  }

  /**
   * SetupNotify over the lists in `keys` order. With commands to execute it
   * does nothing; it exits at the first id without a "."; otherwise every
   * list gets the notifiers of its ids, an empty set included.
   */
  method SetupNotify(opts: ConfigOpts, keys: seq<string>, matrixFails: MatrixConfig -> bool) returns (exited: bool)
    requires Config.Enumerates(keys, opts.lists)
    modifies opts.lists.Values
    ensures |opts.executeCmds| != 0 ==> !exited && forall k :: k in opts.lists ==> opts.lists[k].notifyConfig == old(opts.lists[k].notifyConfig)
    ensures |opts.executeCmds| == 0 ==> (exited <==> exists k :: k in opts.lists && !Dotted(opts.lists[k].notifications))
    ensures !exited && |opts.executeCmds| == 0 ==>
              forall k :: k in opts.lists ==> Configured(opts.lists[k], opts.mailConfig, opts.matrixConfig, matrixFails)
    ensures forall k :: k in opts.lists ==> opts.lists[k].name == old(opts.lists[k].name)
  {
    exited := false;
    if |opts.executeCmds| != 0 {
      return;
    }
    exited := ConfigureLists(opts.lists, keys, opts.mailConfig, opts.matrixConfig, matrixFails);
  }

  /** The loop of SetupNotify: the lists in `keys` order, stopping at the first one with an id without a ".". */
  method ConfigureLists(lists: map<string, CmdList>, keys: seq<string>, mail: map<string, MailConfig>,
                        matrix: map<string, MatrixConfig>, matrixFails: MatrixConfig -> bool) returns (exited: bool)
    requires Config.Enumerates(keys, lists)
    modifies lists.Values
    ensures exited <==> exists k :: k in lists && !Dotted(lists[k].notifications)
    ensures !exited ==> forall k :: k in lists ==> Configured(lists[k], mail, matrix, matrixFails)
    ensures forall k :: k in lists ==> lists[k].name == old(lists[k].name)
  {
    var i := 0;
    while i < |keys|
      invariant 0 <= i <= |keys|
      invariant forall j :: 0 <= j < i ==> Configured(lists[keys[j]], mail, matrix, matrixFails)
      invariant forall k :: k in lists ==> lists[k].name == old(lists[k].name)
    {
      var ok := ConfigureStep(lists, keys, i, lists[keys[i]], mail, matrix, matrixFails);
      if !ok {
        return true;
      }
      i := i + 1;
    }
    exited := false;
    EveryListConfigured(lists, keys, mail, matrix, matrixFails);
  }

  /** One turn of SetupNotify's loop: the list at keys[i] is configured, or it has an id without a ".". */
  method ConfigureStep(lists: map<string, CmdList>, keys: seq<string>, i: nat, l: CmdList, mail: map<string, MailConfig>,
                       matrix: map<string, MatrixConfig>, matrixFails: MatrixConfig -> bool) returns (ok: bool)
    requires Config.Enumerates(keys, lists) && i < |keys| && l == lists[keys[i]]
    requires forall j :: 0 <= j < i ==> Configured(lists[keys[j]], mail, matrix, matrixFails)
    modifies l`notifyConfig
    ensures !ok ==> keys[i] in lists && !Dotted(lists[keys[i]].notifications)
    ensures ok ==> forall j :: 0 <= j < i + 1 ==> Configured(lists[keys[j]], mail, matrix, matrixFails)
  {
    ok := ConfigureList(l, mail, matrix, matrixFails);
  }

  /** Configured at every position of an enumeration is configured under every key. */
  lemma EveryListConfigured(lists: map<string, CmdList>, keys: seq<string>, mail: map<string, MailConfig>,
                            matrix: map<string, MatrixConfig>, matrixFails: MatrixConfig -> bool)
    requires Config.Enumerates(keys, lists)
    requires forall j :: 0 <= j < |keys| ==> Configured(lists[keys[j]], mail, matrix, matrixFails)
    ensures forall k :: k in lists ==> Configured(lists[k], mail, matrix, matrixFails)
  {
    forall k | k in lists
      ensures Configured(lists[k], mail, matrix, matrixFails)
    {
      var j :| 0 <= j < |keys| && keys[j] == k;
    }
  }
}