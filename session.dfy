/** The `Session` layer of session.go: username defaulting in the factory, the exact
    command line each operation sends through `SessionIO.Exec`, and the wrapping of
    `Exec`'s error with an operation-specific prefix. */
module Steamcmd {
  import opened Strings
  import opened Framing
  import opened Protocol

  /** `SessionFactory`: the username the sessions it creates log in with. */
  datatype SessionFactory = SessionFactory(username: string) {

    /** `SessionFactory.New`: a session for the factory's username. */
    method New(childStdout: string, childStderr: string, schedule: seq<Source>) returns (r: Reply<Session>)
      ensures var started := Channels(Tokenize(childStdout).tokens, Tokenize(childStderr).tokens, schedule);
              (r.Hang? <==> Collect(PROMPT, started).Stuck?) &&
              (r.Value? ==> fresh(r.value) && fresh(r.value.io) && r.value.username == username &&
                            r.value.io.stdinLines == [] && r.value.io.Pending() == Collect(PROMPT, started).rest)
      ensures !r.Error?
    {
      r := NewSession(childStdout, childStderr, schedule, username);
    }
  }

  /** `NewSessionFactory`: an empty username stands for anonymous login. */
  function NewSessionFactory(username: string): (f: SessionFactory)
    ensures username == "" ==> f.username == "anonymous"
    ensures username != "" ==> f.username == username
  {
    var name := if username == "" then "anonymous" else username;
    SessionFactory(name)
  }

  /** A factory never holds an empty username, so building one from the username of
      another changes nothing. */
  lemma NewSessionFactoryIdempotent(username: string)
    ensures NewSessionFactory(username).username != ""
    ensures NewSessionFactory(NewSessionFactory(username).username) == NewSessionFactory(username)
  {
  }

  // ---------------------------------------------------------------------------
  // Command lines

  /** The commands a session sends, as the child reads them. */
  datatype Command =
    | Login(username: string)
    | ForceInstallDir(dir: string)
    | AppUpdate(appID: int, validate: bool)
    | WorkshopDownloadItem(appID: int, modID: int)
    | Quit

  function LoginLine(username: string): string {
    "login " + username
  }

  function ForceInstallDirLine(dir: string): string {
    "force_install_dir " + dir
  }

  function AppUpdateLine(appID: int, validate: bool): string {
    "app_update " + (Decimal(appID) + (if validate then " validate" else ""))
  }

  function InstallModLine(appID: int, modID: int): string {
    "workshop_download_item " + (Decimal(appID) + " " + Decimal(modID))
  }

  /** A reading of a command line: the verb, then its arguments. */
  function ParseCommand(line: string): Option<Command> {
    if line == "quit" then Some(Quit)
    else if HasPrefix(line, "login ") then Some(Login(line[6..]))
    else if HasPrefix(line, "force_install_dir ") then Some(ForceInstallDir(line[18..]))
    else if HasPrefix(line, "app_update ") then ParseAppUpdate(line[11..])
    else if HasPrefix(line, "workshop_download_item ") then ParseInstallMod(line[23..])
    else None
  }

  function ParseAppUpdate(args: string): Option<Command> {
    var k := IndexOf(args, " ");
    if k == -1 then
      match ParseDecimal(args)
      case Some(n) => Some(AppUpdate(n, false))
      case None => None
    else if args[k..] == " validate" then
      match ParseDecimal(args[..k])
      case Some(n) => Some(AppUpdate(n, true))
      case None => None
    else None
  }

  function ParseInstallMod(args: string): Option<Command> {
    var k := IndexOf(args, " ");
    if k == -1 then None
    else
      match (ParseDecimal(args[..k]), ParseDecimal(args[k + 1..]))
      case (Some(a), Some(m)) => Some(WorkshopDownloadItem(a, m))
      case _ => None
  }

  /** The login line names exactly the session's username. */
  lemma LoginLineParses(username: string)
    ensures ParseCommand(LoginLine(username)) == Some(Login(username))
  {
    var line := LoginLine(username);
    assert line[..6] == "login ";
    assert line[6..] == username;
  }

  /** The install-directory line names exactly the directory given. */
  lemma ForceInstallDirLineParses(dir: string)
    ensures ParseCommand(ForceInstallDirLine(dir)) == Some(ForceInstallDir(dir))
  {
    var line := ForceInstallDirLine(dir);
    assert line[0] == 'f';
    assert line[..18] == "force_install_dir ";
    assert line[18..] == dir;
  }

  /** A line starting `app_update ` is read by `ParseAppUpdate` on what follows. */
  lemma ParseAppUpdateVerb(args: string)
    ensures ParseCommand("app_update " + args) == ParseAppUpdate(args)
  {
    var line := "app_update " + args;
    assert line[0] == 'a' && line[..11] == "app_update " && line[11..] == args;
    assert line != "quit";
    assert !HasPrefix(line, "login ") by { assert "login "[0] == 'l'; }
    assert !HasPrefix(line, "force_install_dir ") by { assert "force_install_dir "[0] == 'f'; }
  }

  /** A line starting `workshop_download_item ` is read by `ParseInstallMod` on what
      follows. */
  lemma ParseInstallModVerb(args: string)
    ensures ParseCommand("workshop_download_item " + args) == ParseInstallMod(args)
  {
    var line := "workshop_download_item " + args;
    assert line[0] == 'w' && line[..23] == "workshop_download_item " && line[23..] == args;
    assert line != "quit";
    assert !HasPrefix(line, "login ") by { assert "login "[0] == 'l'; }
    assert !HasPrefix(line, "force_install_dir ") by { assert "force_install_dir "[0] == 'f'; }
    assert !HasPrefix(line, "app_update ") by { assert "app_update "[0] == 'a'; }
  }

  /** The arguments of `app_update`: a numeral without spaces, then ` validate` or
      nothing. */
  lemma ParseAppUpdateArgs(id: string, n: int)
    requires ParseDecimal(id) == Some(n) && ' ' !in id
    ensures ParseAppUpdate(id + " validate") == Some(AppUpdate(n, true))
    ensures ParseAppUpdate(id) == Some(AppUpdate(n, false))
  {
    var args := id + " validate";
    assert args == id + [' '] + "validate";
    IndexOfAfter(id, ' ', "validate");
    assert args[|id|..] == " validate";
    assert args[..|id|] == id;
    IndexOfAbsent(id, ' ');
  }

  /** The app-update line carries the app id in decimal, and ` validate` exactly when
      validation is asked for. */
  lemma AppUpdateLineParses(appID: int, validate: bool)
    ensures ParseCommand(AppUpdateLine(appID, validate)) == Some(AppUpdate(appID, validate))
  {
    var id := Decimal(appID);
    DecimalRoundTrip(appID);
    ParseAppUpdateArgs(id, appID);
    ParseAppUpdateVerb(id + (if validate then " validate" else ""));
    if !validate {
      assert id + "" == id;
    }
  }

  /** The arguments of `workshop_download_item`: two numerals without spaces, one
      space apart. */
  lemma ParseInstallModArgs(app: string, mod: string, a: int, m: int)
    requires ParseDecimal(app) == Some(a) && ParseDecimal(mod) == Some(m) && ' ' !in app
    ensures ParseInstallMod(app + " " + mod) == Some(WorkshopDownloadItem(a, m))
  {
    var args := app + " " + mod;
    IndexOfAfter(app, ' ', mod);
    assert args[..|app|] == app;
    assert args[|app| + 1..] == mod;
  }

  /** The mod-install line carries the app id and then the mod id, both in decimal. */
  lemma InstallModLineParses(appID: int, modID: int)
    ensures ParseCommand(InstallModLine(appID, modID)) == Some(WorkshopDownloadItem(appID, modID))
  {
    var app := Decimal(appID);
    var mod := Decimal(modID);
    DecimalRoundTrip(appID);
    DecimalRoundTrip(modID);
    ParseInstallModArgs(app, mod, appID, modID);
    ParseInstallModVerb(app + " " + mod);
  }

  // ---------------------------------------------------------------------------
  // Error wrapping

  const LOGIN_FAILED := "failed to execute login command: "
  const APP_UPDATE_FAILED := "failed to execute app update command: "
  const INSTALL_MOD_FAILED := "failed to execute install mod command: "

  function ForceInstallDirFailed(dir: string): string {
    "failed to force install dir " + dir + ": "
  }

  /** An operation's result from its `Exec` reply: nil when `Exec` succeeded, the
      error message behind `prefix` when it failed. */
  function Wrap(prefix: string, reply: Reply<Output>): (r: Reply<()>)
    ensures r.Value? <==> reply.Value?
    ensures r.Hang? <==> reply.Hang?
    ensures reply.Error? ==> r == Error(prefix + reply.message)
  {
    match reply
    case Value(_) => Value(())
    case Error(message) => Error(prefix + message)
    case Hang => Hang
  }

  /** The failure the child reports on stderr before the prompt after an app update
      ends up, with both prefixes, in `AppUpdate`'s error. */
  lemma AppUpdateReportsStderr()
    ensures Wrap(APP_UPDATE_FAILED, ExecReply(Channels([PROMPT], ["ERROR: invalid appid"], [FromStderr, FromStdout])))
            == Error("failed to execute app update command: " + "failed to execute command: " + "ERROR: invalid appid")
  {
    ExecFailsOnStderr(Channels([PROMPT], ["ERROR: invalid appid"], [FromStderr, FromStdout]), "ERROR: invalid appid");
  }

  // ---------------------------------------------------------------------------
  // Sessions

  /** `Session`: one `SessionIO` and the username to log in with. */
  class Session {
    const io: SessionIO
    const username: string

    constructor (io: SessionIO, username: string)
      ensures this.io == io && this.username == username
    {
      this.io := io;
      this.username := username;
    }

    /** `Login`: sends `login <username>`. */
    method Login() returns (r: Reply<()>)
      modifies io
      ensures io.stdinLines == old(io.stdinLines) + [LoginLine(username)]
      ensures io.Pending() == Collect(PROMPT, old(io.Pending())).rest
      ensures r == Wrap(LOGIN_FAILED, ExecReply(old(io.Pending())))
    {
      var reply := io.Exec("login " + username);
      match reply
      case Value(_) => r := Value(());
      case Error(message) => r := Error("failed to execute login command: " + message);
      case Hang => r := Hang;
    }

    /** `ForceInstallDir`: sends `force_install_dir <dir>`. */
    method ForceInstallDir(installDir: string) returns (r: Reply<()>)
      modifies io
      ensures io.stdinLines == old(io.stdinLines) + [ForceInstallDirLine(installDir)]
      ensures io.Pending() == Collect(PROMPT, old(io.Pending())).rest
      ensures r == Wrap(ForceInstallDirFailed(installDir), ExecReply(old(io.Pending())))
    {
      var reply := io.Exec("force_install_dir " + installDir);
      match reply
      case Value(_) => r := Value(());
      case Error(message) => r := Error("failed to force install dir " + installDir + ": " + message);
      case Hang => r := Hang;
    }

    /** `AppUpdate`: sends `app_update <appID>`, followed by ` validate` when asked. */
    method AppUpdate(appID: int, validate: bool) returns (r: Reply<()>)
      modifies io
      ensures io.stdinLines == old(io.stdinLines) + [AppUpdateLine(appID, validate)]
      ensures io.Pending() == Collect(PROMPT, old(io.Pending())).rest
      ensures r == Wrap(APP_UPDATE_FAILED, ExecReply(old(io.Pending())))
    {
      var cmd := "app_update " + Decimal(appID);
      if validate {
        cmd := cmd + " validate";
      }
      assert cmd == AppUpdateLine(appID, validate);
      var reply := io.Exec(cmd);
      match reply
      case Value(_) => r := Value(());
      case Error(message) => r := Error("failed to execute app update command: " + message);
      case Hang => r := Hang;
    }

    /** `InstallMod`: sends `workshop_download_item <appID> <modID>`. */
    method InstallMod(appID: int, modID: int) returns (r: Reply<()>)
      modifies io
      ensures io.stdinLines == old(io.stdinLines) + [InstallModLine(appID, modID)]
      ensures io.Pending() == Collect(PROMPT, old(io.Pending())).rest
      ensures r == Wrap(INSTALL_MOD_FAILED, ExecReply(old(io.Pending())))
    {
      var cmd := InstallModLine(appID, modID);
      var reply := io.Exec(cmd);
      match reply
      case Value(_) => r := Value(());
      case Error(message) => r := Error("failed to execute install mod command: " + message);
      case Hang => r := Hang;
    }

    /** `Close`: what `SessionIO.Close` returns, which is always nil. */
    method Close() returns (r: Reply<()>)
      modifies io
      ensures io.stdinLines == old(io.stdinLines) + ["quit"]
      ensures io.Pending() == old(io.Pending())
      ensures r == Value(())
    {
      r := io.Close();
    }
  }

  /** `NewSession`: starts the session I/O, then pairs it with the username. */
  method NewSession(childStdout: string, childStderr: string, schedule: seq<Source>, username: string)
    returns (r: Reply<Session>)
    ensures var started := Channels(Tokenize(childStdout).tokens, Tokenize(childStderr).tokens, schedule);
            (r.Hang? <==> Collect(PROMPT, started).Stuck?) &&
            (r.Value? ==> fresh(r.value) && fresh(r.value.io) && r.value.username == username &&
                          r.value.io.stdinLines == [] && r.value.io.Pending() == Collect(PROMPT, started).rest)
    ensures !r.Error?
  {
    var ioSession := NewSessionIO(childStdout, childStderr, schedule);
    match ioSession
    case Value(sessionIO) =>
      var sess := new Session(sessionIO, username);
      r := Value(sess);
    case Error(message) => r := Error("failed to create session IO: " + message);
    case Hang => r := Hang;
  }
}
