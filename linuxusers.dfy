// Linux user-management command builders (pkg/usermanager/linux/linux.go).
module LinuxUsers {
  import Strs

  /** `flag value` when the value is not empty, else nothing. */
  function Flag(flag: string, value: string): (r: seq<string>)
    ensures value == "" ==> r == []
    ensures value != "" ==> r == [flag, value]
  {
    if value != "" then [flag, value] else []
  }

  /** `--groups g1,g2,…` when there are groups. */
  function GroupsFlag(groups: seq<string>): (r: seq<string>)
    ensures |groups| == 0 ==> r == []
    ensures |groups| > 0 ==> r == ["--groups", Strs.Join(groups, ",")]
  {
    if |groups| > 0 then ["--groups", Strs.Join(groups, ",")] else []
  }

  /** AddUser: `useradd` with the flags in a fixed order and the name last. */
  function AddUser(username: string, homeDir: string, shell: string, createHome: bool, isSystem: bool,
                   groups: seq<string>, args: seq<string>): (r: (string, seq<string>))
    ensures r.0 == "useradd"
    ensures |r.1| > 0 && r.1[|r.1| - 1] == username
    ensures r.1 == (if isSystem then ["--system"] else []) + Flag("--home", homeDir) + Flag("--shell", shell)
                   + GroupsFlag(groups) + args + (if createHome then ["-m"] else []) + [username]
  {
    var a0: seq<string> := if isSystem then ["--system"] else [];
    var a1 := a0 + Flag("--home", homeDir);
    var a2 := a1 + Flag("--shell", shell);
    var a3 := a2 + GroupsFlag(groups);
    var a4 := if |args| > 0 then a3 + args else a3;
    var a5 := if createHome then a4 + ["-m"] else a4;
    ("useradd", a5 + [username])
  }

  /** Whether `useradd` is asked to make a system account, and a home directory. */
  lemma AddUserFlags(username: string, homeDir: string, shell: string, createHome: bool, isSystem: bool,
                     groups: seq<string>, args: seq<string>)
    requires "--system" !in args && "-m" !in args && username != "--system" && username != "-m"
    requires homeDir != "--system" && homeDir != "-m" && shell != "--system" && shell != "-m"
    requires Strs.Join(groups, ",") != "--system" && Strs.Join(groups, ",") != "-m"
    ensures var argv := AddUser(username, homeDir, shell, createHome, isSystem, groups, args).1;
      ("--system" in argv <==> isSystem) && ("-m" in argv <==> createHome)
  {
    var sys: seq<string> := if isSystem then ["--system"] else [];
    var m: seq<string> := if createHome then ["-m"] else [];
    var home := Flag("--home", homeDir);
    var sh := Flag("--shell", shell);
    var gr := GroupsFlag(groups);
    assert "--system" !in home && "-m" !in home;
    assert "--system" !in sh && "-m" !in sh;
    assert "--system" !in gr && "-m" !in gr;
    var argv := sys + home + sh + gr + args + m + [username];
    assert "--system" in argv <==> "--system" in sys;
    assert "-m" in argv <==> "-m" in m;
  }

  /** ModifyPassword: `generated` stands for the 20-character random password. */
  function ModifyPassword(username: string, password: string, generated: string): (r: (string, string, string))
    requires |generated| == 20
    ensures r.0 == "chpasswd"
    ensures password != "" ==> r.2 == password
    ensures password == "" ==> |r.2| == 20
    ensures r.1 == username + ":" + r.2
  {
    var pw := if password == "" then generated else password;
    ("chpasswd", username + ":" + pw, pw)
  }

  function RemoveUser(username: string): (r: (string, seq<string>))
    ensures r == ("userdel", [username])
  {
    ("userdel", [username])
  }

  /** ModifyUser: `usermod` with the present flags, the name last. */
  function ModifyUser(username: string, homeDir: string, shell: string, groups: seq<string>): (r: (string, seq<string>))
    ensures r.0 == "usermod"
    ensures r.1 == Flag("--home", homeDir) + Flag("--shell", shell) + GroupsFlag(groups) + [username]
  {
    ("usermod", Flag("--home", homeDir) + Flag("--shell", shell) + GroupsFlag(groups) + [username])
  }

  function UserExists(username: string): (r: (string, seq<string>))
    ensures r == ("id", [username])
  {
    ("id", [username])
  }
}
