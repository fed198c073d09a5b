// PackageManagerFactory and its options (pkg/pkgman/pkgman.go).
module PkgMan {
  import opened Wrappers
  import Apt
  import Yum
  import Dnf

  /** The manager behind the PackageManager interface. */
  datatype Manager = AptM(apt: Apt.AptManager) | YumM(yum: Yum.YumManager) | DnfM(dnf: Dnf.DnfManager)

  function Object(m: Manager): object
  {
    match m
    case AptM(a) => a
    case YumM(y) => y
    case DnfM(d) => d
  }

  function UseAuth(m: Manager): bool
    reads Object(m)
  {
    match m
    case AptM(a) => a.useAuth
    case YumM(y) => y.useAuth
    case DnfM(d) => d.useAuth
  }

  function AuthCommand(m: Manager): string
    reads Object(m)
  {
    match m
    case AptM(a) => a.authCommand
    case YumM(y) => y.authCommand
    case DnfM(d) => d.authCommand
  }

  /** The functional options: every manager here has both setters. */
  datatype ManagerOption = WithAuth(authCommand: string) | WithoutAuth

  /** The (useAuth, authCommand) pair after applying options in order. */
  function Configured(start: (bool, string), options: seq<ManagerOption>): (bool, string)
  {
    if |options| == 0 then start
    else
      var prev := Configured(start, options[..|options| - 1]);
      match options[|options| - 1]
      case WithAuth(c) => (true, c)
      case WithoutAuth => (false, prev.1)
  }

  /** The last option decides `useAuth`; the command is the last WithAuth's. */
  lemma {:induction false} LastOptionWins(start: (bool, string), options: seq<ManagerOption>)
    requires |options| > 0
    ensures Configured(start, options).0 == options[|options| - 1].WithAuth?
    ensures (forall k :: 0 <= k < |options| ==> options[k].WithoutAuth?) ==> Configured(start, options).1 == start.1
  {
    if |options| > 1 {
      LastOptionWins(start, options[..|options| - 1]);
    }
  }

  method Apply(m: Manager, opt: ManagerOption)
    modifies Object(m)
    ensures (UseAuth(m), AuthCommand(m)) == Configured((old(UseAuth(m)), old(AuthCommand(m))), [opt])
  {
    match m
    case AptM(a) =>
      match opt {
        case WithAuth(c) => a.SetUseAuth(true); a.SetAuthCommand(c);
        case WithoutAuth => a.SetUseAuth(false);
      }
    case YumM(y) =>
      match opt {
        case WithAuth(c) => y.SetUseAuth(true); y.SetAuthCommand(c);
        case WithoutAuth => y.SetUseAuth(false);
      }
    case DnfM(d) =>
      match opt {
        case WithAuth(c) => d.SetUseAuth(true); d.SetAuthCommand(c);
        case WithoutAuth => d.SetUseAuth(false);
      }
  }

  /** Configure: each option in turn. */
  method Configure(m: Manager, options: seq<ManagerOption>)
    modifies Object(m)
    ensures (UseAuth(m), AuthCommand(m)) == Configured((old(UseAuth(m)), old(AuthCommand(m))), options)
  {
    ghost var start := (UseAuth(m), AuthCommand(m));
    var i := 0;
    while i < |options|
      invariant 0 <= i <= |options|
      invariant (UseAuth(m), AuthCommand(m)) == Configured(start, options[..i])
    {
      Apply(m, options[i]);
      assert options[..i + 1][..i] == options[..i];
      i := i + 1;
    }
    assert options[..i] == options;
  }

  /** PackageManagerFactory */
  method PackageManagerFactory(managerType: string, options: seq<ManagerOption>) returns (r: Result<Manager>)
    ensures managerType == "apt" <==> r.Ok? && r.value.AptM?
    ensures managerType == "yum" <==> r.Ok? && r.value.YumM?
    ensures managerType == "dnf" <==> r.Ok? && r.value.DnfM?
    ensures r.Err? ==> r.msg == "unsupported package manager: " + managerType
    ensures r.Ok? ==> fresh(Object(r.value))
    ensures r.Ok? ==> (UseAuth(r.value), AuthCommand(r.value)) == Configured((true, "sudo"), options)
  {
    var m: Manager;
    if managerType == "apt" {
      var a := new Apt.AptManager();
      m := AptM(a);
    } else if managerType == "yum" {
      var y := new Yum.YumManager();
      m := YumM(y);
    } else if managerType == "dnf" {
      var d := new Dnf.DnfManager();
      m := DnfM(d);
    } else {
      return Err("unsupported package manager: " + managerType);
    }
    Configure(m, options);
    r := Ok(m);
  }
}
