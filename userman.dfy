// NewUserManager (pkg/usermanager/userman.go).
module UserMan {
  import opened Wrappers

  /** The only implementation of the UserManager interface. */
  datatype UserManager = LinuxUserManager

  function NewUserManager(system: string): (r: Result<UserManager>)
    ensures r.Ok? <==> system == "linux" || system == "Linux"
    ensures r.Err? ==> r.msg == "usermanger system " + system + " is not recognized"
  {
    if system == "linux" || system == "Linux" then Ok(LinuxUserManager)
    else Err("usermanger system " + system + " is not recognized")
  }

  lemma UpperCaseRejected()
    ensures NewUserManager("LINUX").Err?
  {
  }
}
