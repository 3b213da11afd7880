/**
 * The terminal's command table and the output each command produces. Fixed
 * output text is modelled as the browser shows it: tags dropped, entities such as
 * `&lt;` decoded. Text the user typed is kept literally, although the source
 * inserts it as HTML without escaping it.
 * Work a handler schedules for later (a timer, a download) is returned as a
 * `Deferred` value instead of being run.
 */
module Commands {
  import opened Wrappers
  import opened Text

  datatype Command =
    | Help | About | Experience | Skills | Projects | Blogs | Contact | Clear | Exit
    | Whoami | Ls | Cat | Pwd | Date | Neofetch | Profiles | Reviews

  /** The command table: each word the terminal answers to and its handler. */
  const Table: map<string, Command> := map[
    "help" := Help, "about" := About, "experience" := Experience, "skills" := Skills,
    "projects" := Projects, "blogs" := Blogs, "contact" := Contact, "clear" := Clear,
    "exit" := Exit, "whoami" := Whoami, "ls" := Ls, "cat" := Cat, "pwd" := Pwd,
    "date" := Date, "neofetch" := Neofetch, "profiles" := Profiles, "reviews" := Reviews
  ]

  /** The word under which each command is registered. */
  function Name(c: Command): string {
    match c
    case Help => "help"
    case About => "about"
    case Experience => "experience"
    case Skills => "skills"
    case Projects => "projects"
    case Blogs => "blogs"
    case Contact => "contact"
    case Clear => "clear"
    case Exit => "exit"
    case Whoami => "whoami"
    case Ls => "ls"
    case Cat => "cat"
    case Pwd => "pwd"
    case Date => "date"
    case Neofetch => "neofetch"
    case Profiles => "profiles"
    case Reviews => "reviews"
  }

  /** Every command is registered, under its name. */
  lemma EveryCommandRegistered()
    ensures forall c: Command :: Name(c) in Table && Table[Name(c)] == c
  {
  }

  /** Every registered word is the name of the command it runs, so the table and
      `Name` are inverse. */
  lemma TableMatchesNames()
    ensures forall w :: w in Table ==> Name(Table[w]) == w
  {
  }

  /** Looking a word up among the table's own entries. */
  function Resolve(word: string): (r: Option<Command>)
    ensures r.Some? <==> word in Table
    ensures r.Some? ==> Name(r.value) == word
  {
    if word in Table then Some(Table[word]) else None
  }

  // ---------------------------------------------------------------------------
  // What a handler does

  /** The local date and time, as the browser formats them. */
  datatype Clock = Clock(date: string, time: string)

  datatype Post = Post(slug: string, title: string, file: string)

  /** Work a handler schedules instead of doing at once. */
  datatype Deferred =
    | Nothing
    | OpenSectionAfter(id: string, delayMs: nat)
    | FetchPost(post: Post)
    | CloseWindowAfter(delayMs: nat)

  /** A handler's effect on the output area: whether it empties it, the lines it
      then appends, and what it leaves for later. */
  datatype Effect = Effect(lines: seq<string>, clears: bool, later: Deferred)

  function Print(lines: seq<string>): Effect {
    Effect(lines, false, Nothing)
  }

  /** The output area after an effect. */
  function Apply(output: seq<string>, e: Effect): (r: seq<string>)
    ensures e.clears ==> r == e.lines
    ensures !e.clears ==> |r| == |output| + |e.lines| && r[..|output|] == output
    ensures !e.clears ==> r[|output|..] == e.lines
  {
    (if e.clears then [] else output) + e.lines
  }

  const Prompt := "kenzo@whitehat:~$"

  /** The line echoing an entered command. */
  function EchoLine(line: string): string {
    Prompt + line
  }

  function NotFoundLine(word: string): string {
    "Command not found: " + word + ". Type 'help' for available commands."
  }

  // ---------------------------------------------------------------------------
  // help

  /** The commands `help` advertises, with their descriptions, in order. */
  const HelpEntries: seq<(string, string)> := [
    ("about", "About me and my background"),
    ("experience", "Work experience and timeline"),
    ("skills", "Technical skills and certifications"),
    ("blog", "Security articles and writeups"),
    ("contact", "Get in touch"),
    ("clear", "Clear terminal"),
    ("exit", "Close terminal"),
    ("whoami", "Show current user"),
    ("ls", "List files"),
    ("cat", "Display file contents"),
    ("pwd", "Print working directory"),
    ("date", "Show current date"),
    ("neofetch", "System information")
  ]

  /** One line of the help text: a branch, the command and its description; the
      closing branch `└── ` marks the last line. */
  function HelpLine(entry: (string, string), last: bool): (r: string)
    ensures EndsWith(r, entry.0 + " - " + entry.1)
    ensures "└── " <= r <==> last
    ensures "├── " <= r <==> !last
    ensures |r| == 4 + |entry.0 + " - " + entry.1|
  {
    var text := entry.0 + " - " + entry.1;
    var branch := if last then "└── " else "├── ";
    assert (branch + text)[..4] == branch;
    assert (branch + text)[0] == branch[0];
    assert (branch + text)[|branch + text| - |text|..] == text;
    branch + text
  }

  /** `showHelp`: a title line, then one line per advertised command with its
      description, in order; only the last is drawn with the closing branch. */
  function HelpLines(entries: seq<(string, string)>): (r: seq<string>)
    ensures |r| == |entries| + 1 && r[0] == "Available commands:"
    ensures forall i :: 0 <= i < |entries| ==> EndsWith(r[i + 1], entries[i].0 + " - " + entries[i].1)
    ensures forall i :: 1 <= i < |r| ==> ("└── " <= r[i] <==> i == |r| - 1)
    ensures forall i :: 1 <= i < |r| ==> ("├── " <= r[i] <==> i < |r| - 1)
    ensures forall i :: 0 <= i < |entries| ==> r[i + 1] == HelpLine(entries[i], i == |entries| - 1)
  {
    var lines := seq(|entries|, i requires 0 <= i < |entries| => HelpLine(entries[i], i == |entries| - 1));
    assert forall i :: 0 <= i < |entries| ==> ("└── " <= lines[i] <==> i == |entries| - 1);
    assert forall i :: 0 <= i < |entries| ==> ("├── " <= lines[i] <==> i < |entries| - 1);
    ["Available commands:"] + lines
  }

  function Advertised(): set<string> {
    set i | 0 <= i < |HelpEntries| :: HelpEntries[i].0
  }

  /** `help` and the table disagree about the blog: help advertises `blog`, which is
      not registered, while the blog handler is registered as `blogs`. */
  lemma HelpAdvertisesBlogButTableHasBlogs()
    ensures "blog" in Advertised() && Resolve("blog") == None
    ensures "blogs" !in Advertised() && Resolve("blogs") == Some(Blogs)
  {
    AdvertisedWords();
  }

  /** Every word help advertises, `blog` aside, is registered. */
  lemma AdvertisedAreRegistered()
    ensures forall w :: w in Advertised() && w != "blog" ==> w in Table
  {
    AdvertisedWords();
  }

  /** The registered words help leaves out are `help`, `projects`, `blogs`,
      `profiles` and `reviews`. */
  lemma UnadvertisedCommands()
    ensures forall w :: w in Table && w !in Advertised() ==>
      w in {"help", "projects", "blogs", "profiles", "reviews"}
  {
    AdvertisedWords();
  }

  lemma AdvertisedWords()
    ensures Advertised() == {"about", "experience", "skills", "blog", "contact", "clear", "exit",
                             "whoami", "ls", "cat", "pwd", "date", "neofetch"}
  {
    forall i | 0 <= i < |HelpEntries| ensures HelpEntries[i].0 in Advertised() {}
    assert HelpEntries[0].0 == "about" && HelpEntries[1].0 == "experience" && HelpEntries[2].0 == "skills" && HelpEntries[3].0 == "blog" && HelpEntries[4].0 == "contact" && HelpEntries[5].0 == "clear" && HelpEntries[6].0 == "exit" && HelpEntries[7].0 == "whoami" && HelpEntries[8].0 == "ls" && HelpEntries[9].0 == "cat" && HelpEntries[10].0 == "pwd" && HelpEntries[11].0 == "date" && HelpEntries[12].0 == "neofetch";
    forall i | 0 <= i < |HelpEntries|
      ensures HelpEntries[i].0 in {"about", "experience", "skills", "blog", "contact", "clear", "exit",
                                   "whoami", "ls", "cat", "pwd", "date", "neofetch"}
    {
      assert i in {0, 1, 2, 3, 4, 5, 6, 7, 8, 9, 10, 11, 12};
    }
  }

  // ---------------------------------------------------------------------------
  // about, experience, skills, projects, contact

  /** A section command: announces the file and opens its section after 500 ms. */
  function OpenAfterDelay(name: string): Effect {
    Effect(["Opening " + name + ".txt..."], false, OpenSectionAfter(name + "-content", 500))
  }

  // ---------------------------------------------------------------------------
  // blogs

  const BlogPosts: seq<Post> := [Post("hello-world", "Hello World", "blogs/hello-world.md")]

  /** Array `find` by slug: the position of the first post with that slug. */
  function FindPost(posts: seq<Post>, slug: string): (r: Option<nat>)
    ensures r.Some? ==> r.value < |posts| && posts[r.value].slug == slug
    ensures r.Some? ==> forall j :: 0 <= j < r.value ==> posts[j].slug != slug
    ensures r.None? ==> forall j :: 0 <= j < |posts| ==> posts[j].slug != slug
    decreases |posts|
  {
    if posts == [] then None
    else if posts[0].slug == slug then Some(0)
    else
      match FindPost(posts[1..], slug)
      case None => None
      case Some(k) => Some(k + 1)
  }

  /** One listing line per post, in order, showing its title. */
  function PostLines(posts: seq<Post>): (r: seq<string>)
    ensures |r| == |posts|
    ensures forall i :: 0 <= i < |posts| ==> r[i] == "├── " + posts[i].title
  {
    seq(|posts|, i requires 0 <= i < |posts| => "├── " + posts[i].title)
  }

  const BlogHeader := "Available blog posts:"
  const BlogFooter := "Type blog <slug> to read a post."

  function NoPostLine(slug: string): string {
    "No blog post found for slug: " + slug
  }

  /** The section a downloaded post is shown in. */
  const BlogSection := "blog-content"

  /** The line printed when a post's download fails. */
  function LoadFailedLine(slug: string): string {
    "Failed to load blog post: " + slug
  }

  /** `showBlog(args)`: no argument or `list` lists the posts; a known slug
      announces the post and leaves its download for later; any other slug is
      reported as not found. */
  function ShowBlog(args: seq<string>): (e: Effect)
    ensures !e.clears
    ensures args == [] || args[0] == "list" ==>
      e == Print([BlogHeader] + PostLines(BlogPosts) + [BlogFooter])
    ensures e.later.FetchPost? <==>
      args != [] && args[0] != "list" && exists i :: 0 <= i < |BlogPosts| && BlogPosts[i].slug == args[0]
    ensures e.later.FetchPost? ==>
      && e.later.post in BlogPosts && e.later.post.slug == args[0]
      && e.lines == ["Opening blog: " + e.later.post.title + "..."]
    ensures args != [] && args[0] != "list" && !e.later.FetchPost? ==> e == Print([NoPostLine(args[0])])
  {
    if args == [] || args[0] == "list" then
      Print([BlogHeader] + PostLines(BlogPosts) + [BlogFooter])
    else
      match FindPost(BlogPosts, args[0])
      case None => Print([NoPostLine(args[0])])
      case Some(i) => Effect(["Opening blog: " + BlogPosts[i].title + "..."], false, FetchPost(BlogPosts[i]))
  }

  // ---------------------------------------------------------------------------
  // ls and cat

  /** The files `ls` shows, in order. */
  const FileNames: seq<string> := ["about.txt", "experience.txt", "projects.txt", "contact.txt"]

  const ShortListing := FileNames[0] + "  " + FileNames[1] + "  " + FileNames[2] + "  " + FileNames[3]

  const LongListing: seq<string> := [
    "total 8",
    "drwxr-xr-x  2 kenzo kenzo 4096 Dec 15 10:30 .",
    "drwxr-xr-x  3 kenzo kenzo 4096 Dec 15 10:30 ..",
    "-rw-r--r--  1 kenzo kenzo  256 Dec 15 10:30 " + FileNames[0],
    "-rw-r--r--  1 kenzo kenzo  512 Dec 15 10:30 " + FileNames[1],
    "-rw-r--r--  1 kenzo kenzo  384 Dec 15 10:30 " + FileNames[2],
    "-rw-r--r--  1 kenzo kenzo  128 Dec 15 10:30 " + FileNames[3]
  ]

  predicate EndsWith(s: string, suffix: string) {
    |suffix| <= |s| && s[|s| - |suffix|..] == suffix
  }

  /** `listFiles(args)`: the long listing when any argument is `-la` or `-a`,
      otherwise the one-line listing. */
  function ListFiles(args: seq<string>): (r: seq<string>)
    ensures ("-la" in args || "-a" in args) ==> r == LongListing && |r| == 3 + |FileNames|
    ensures ("-la" in args || "-a" in args) ==>
      forall i :: 0 <= i < |FileNames| ==> EndsWith(r[3 + i], FileNames[i])
    ensures !("-la" in args || "-a" in args) ==> r == [ShortListing]
  {
    if "-la" in args || "-a" in args then LongListing else [ShortListing]
  }

  /** The hint closing each file, naming the command that shows more. */
  function Hint(word: string): string {
    "Type \"" + word + "\""
  }

  /** What `cat` prints for each file it knows. */
  const FileText: map<string, seq<string>> := map[
    "about.txt" := [
      "Blockchain Offensive Security Researcher",
      "Specialized in smart contract auditing and DeFi security",
      Hint("about") + " to view full profile"],
    "experience.txt" := [
      "Senior Blockchain Security Researcher (2022-Present)",
      "Penetration Tester (2020-2022)",
      "Security Analyst (2018-2020)",
      Hint("experience") + " to view detailed timeline"],
    "projects.txt" := [
      "Smart Contract Vulnerability Scanner",
      "MEV Bot Detection System",
      "Cross-Chain Bridge Security Framework",
      Hint("projects") + " to view detailed projects"],
    "contact.txt" := [
      "Email: your.email@example.com",
      "Twitter: @YourTwitterHandle",
      "GitHub: github.com/YourUsername",
      Hint("contact") + " to view full contact info"]
  ]

  const CatUsage := "Usage: cat [filename]"

  function NoSuchFileLine(file: string): string {
    "cat: " + file + ": No such file or directory"
  }

  /** `catFile(args)`: a missing or empty first argument prints the usage line, a
      known file its text, anything else one error line. */
  function CatFile(args: seq<string>): (r: seq<string>)
    ensures args == [] || args[0] == "" ==> r == [CatUsage]
    ensures args != [] && args[0] != "" && args[0] !in FileText ==> r == [NoSuchFileLine(args[0])]
    ensures args != [] && args[0] in FileText ==> r == FileText[args[0]] && |r| >= 3
  {
    var file := if args == [] then "" else args[0];
    if file == "" then [CatUsage]
    else if file in FileText then FileText[file]
    else [NoSuchFileLine(file)]
  }

  /** `ls` and `cat` agree: the files listed are exactly the files `cat` can print. */
  lemma ListedFilesAreReadable(f: string)
    ensures f in FileText <==> f in FileNames
    ensures f in FileNames ==> CatFile([f]) == FileText[f]
    ensures f != "" && f !in FileNames ==> CatFile([f]) == [NoSuchFileLine(f)]
  {
  }

  /** Only the first argument of `cat` matters. */
  lemma CatReadsFirstArgOnly(args: seq<string>)
    requires args != []
    ensures CatFile(args) == CatFile(args[..1])
  {
  }

  /** The hint at the end of every file names a registered section command, one
      that opens the section of the same name. */
  lemma CatHintsNameSectionCommands(f: string)
    requires f in FileText
    ensures var text := FileText[f]; var word := f[..|f| - 4];
      && Hint(word) <= text[|text| - 1]
      && Resolve(word).Some?
      && Resolve(word).value in {About, Experience, Projects, Contact}
  {
    var word := f[..|f| - 4];
    if f == "about.txt" {
      assert word == "about";
    } else if f == "experience.txt" {
      assert word == "experience";
    } else if f == "projects.txt" {
      assert word == "projects";
    } else {
      assert word == "contact";
    }
  }

  /** `skills` announces `skills.txt`, yet `ls` does not list it and `cat` rejects it. */
  lemma SkillsFileIsMissing(clock: Clock)
    ensures Handle(Skills, [], clock).lines == ["Opening skills.txt..."]
    ensures "skills.txt" !in FileNames
    ensures CatFile(["skills.txt"]) == [NoSuchFileLine("skills.txt")]
  {
    assert "Opening " + "skills" + ".txt..." == "Opening skills.txt...";
  }

  // ---------------------------------------------------------------------------
  // The remaining fixed outputs

  const WhoamiLine := "Offensive Blockchain Security Researcher | Smart Contract Auditor | DeFi Security Expert"
  const PwdLine := "/home/kenzo/whitehat"
  const GoodbyeLine := "Goodbye! Closing terminal..."

  const NeofetchLines: seq<string> := [
    "                    kenzo@whitehat",
    "                   -------------------",
    "OS: Blockchain Security Researcher",
    "Kernel: Smart Contract Auditor",
    "Shell: DeFi Security Expert",
    "Terminal: Offensive Security",
    "CPU: Solidity, Vyper, Python",
    "Memory: 50+ Smart Contract Audits",
    "Disk: 100+ Penetration Tests",
    "Packages: OSCP, OSCE, CISSP"
  ]

  const ProfileLines: seq<string> := [
    "My Security Researcher Profiles:",
    "├── Cantina",
    "├── Sherlock",
    "└── Immunefi"
  ]

  const ReviewLines: seq<string> := [
    "My Security Review Portfolios:",
    "├── Cantina Reviews",
    "├── Sherlock Reviews",
    "└── Immunefi Reviews"
  ]

  // ---------------------------------------------------------------------------
  // Dispatch

  /** Runs the handler of a command on its arguments. */
  function Handle(c: Command, args: seq<string>, clock: Clock): Effect {
    match c
    case Help => Print(HelpLines(HelpEntries))
    case About => OpenAfterDelay("about")
    case Experience => OpenAfterDelay("experience")
    case Skills => OpenAfterDelay("skills")
    case Projects => OpenAfterDelay("projects")
    case Blogs => ShowBlog(args)
    case Contact => OpenAfterDelay("contact")
    case Clear => Effect([], true, Nothing)
    case Exit => Effect([GoodbyeLine], false, CloseWindowAfter(1000))
    case Whoami => Print([WhoamiLine])
    case Ls => Print(ListFiles(args))
    case Cat => Print(CatFile(args))
    case Pwd => Print([PwdLine])
    case Date => Print([clock.date + " " + clock.time])
    case Neofetch => Print(NeofetchLines)
    case Profiles => Print(ProfileLines)
    case Reviews => Print(ReviewLines)
  }

  /** What each handler leaves behind: only `clear` empties the output and only it
      prints nothing; the five section commands, and only they, announce their file
      and open the section named after them after 500 ms; only `blogs` downloads a
      post and only `exit` closes the window. */
  lemma HandleEffects(c: Command, args: seq<string>, clock: Clock)
    ensures var e := Handle(c, args, clock);
      && (e.clears <==> c == Clear)
      && (e.lines == [] <==> c == Clear)
      && (e.clears ==> e.later == Nothing)
      && (e.later.OpenSectionAfter? <==> c in {About, Experience, Skills, Projects, Contact})
      && (e.later.OpenSectionAfter? ==>
            e == Effect(["Opening " + Name(c) + ".txt..."], false, OpenSectionAfter(Name(c) + "-content", 500)))
      && (e.later.FetchPost? ==> c == Blogs)
      && (e.later.CloseWindowAfter? <==> c == Exit)
  {
  }

  /** Only `blogs`, `ls` and `cat` look at their arguments. */
  lemma ArgumentsIgnoredElsewhere(c: Command, args: seq<string>, clock: Clock)
    requires c !in {Blogs, Ls, Cat}
    ensures Handle(c, args, clock) == Handle(c, [], clock)
  {
  }

  /** `blogs`, `ls` and `cat` hand their arguments to `showBlog`, `listFiles`
      and `catFile`, and print what those return. */
  lemma ArgumentHandlers(args: seq<string>, clock: Clock)
    ensures Handle(Blogs, args, clock) == ShowBlog(args)
    ensures Handle(Ls, args, clock) == Print(ListFiles(args))
    ensures Handle(Cat, args, clock) == Print(CatFile(args))
  {
  }

  /** Only `date` reads the clock: it prints the browser's date and time
      separated by one space; every other handler gives the same effect
      whatever the clock says. */
  lemma OnlyDateReadsClock(c: Command, args: seq<string>, clock: Clock, other: Clock)
    ensures Handle(Date, args, clock) == Print([clock.date + " " + clock.time])
    ensures c != Date ==> Handle(c, args, clock) == Handle(c, args, other)
  {
  }

  /** `help` prints the help listing and schedules nothing. */
  lemma HelpOutput(args: seq<string>, clock: Clock)
    ensures Handle(Help, args, clock) == Print(HelpLines(HelpEntries))
  {
  }

  /** `exit` prints the goodbye line and closes the window after one second. */
  lemma ExitOutput(args: seq<string>, clock: Clock)
    ensures Handle(Exit, args, clock).lines == [GoodbyeLine]
    ensures Handle(Exit, args, clock).later == CloseWindowAfter(1000)
  {
  }

  /** `whoami`, `pwd`, `neofetch`, `profiles` and `reviews` print their own
      fixed lines and schedule nothing. */
  lemma FixedOutputs(args: seq<string>, clock: Clock)
    ensures Handle(Whoami, args, clock) == Print([WhoamiLine])
    ensures Handle(Pwd, args, clock) == Print([PwdLine])
    ensures Handle(Neofetch, args, clock) == Print(NeofetchLines)
    ensures Handle(Profiles, args, clock) == Print(ProfileLines)
    ensures Handle(Reviews, args, clock) == Print(ReviewLines)
  {
  }

  /** The command word: what precedes the first space of the entered line. */
  function CommandWord(line: string): string {
    Split(line, ' ')[0]
  }

  /** The arguments: the remaining space-separated parts, empty ones included. */
  function Args(line: string): seq<string> {
    Split(line, ' ')[1..]
  }

  /** A normalised, non-blank line starts with a non-empty command word, and the
      word and the arguments joined by single spaces give the line back. */
  lemma LineIsWordAndArgs(line: string)
    requires line != [] && Trimmed(line)
    ensures CommandWord(line) != [] && ' ' !in CommandWord(line)
    ensures Join([CommandWord(line)] + Args(line), ' ') == line
  {
    JoinSplit(line, ' ');
    var parts := Split(line, ' ');
    assert [parts[0]] + parts[1..] == parts;
    assert line[0] != ' ';
    assert line[0] == Join(parts, ' ')[0];
  }

  /** A word followed by a space and more text: the word is the command word and
      the rest, split on spaces, gives the arguments. */
  lemma WordThenRest(w: string, rest: string)
    requires ' ' !in w
    ensures CommandWord(w + " " + rest) == w
    ensures Args(w + " " + rest) == Split(rest, ' ')
  {
    SplitAfterWord(w, ' ', rest);
  }

  /** A line without spaces is a command word with no arguments. */
  lemma WordAlone(w: string)
    requires ' ' !in w
    ensures CommandWord(w) == w && Args(w) == []
  {
    SplitNoSep(w, ' ');
  }

  /** `executeCommand` after the line is normalised: a registered word runs its
      handler on the arguments; any other word gives exactly one "Command not
      found" line and nothing else. */
  function Dispatch(line: string, clock: Clock): (e: Effect)
    ensures Resolve(CommandWord(line)).None? ==> e == Print([NotFoundLine(CommandWord(line))])
    ensures Resolve(CommandWord(line)).Some? ==> e == Handle(Resolve(CommandWord(line)).value, Args(line), clock)
  {
    match Resolve(CommandWord(line))
    case Some(c) => Handle(c, Args(line), clock)
    case None => Print([NotFoundLine(CommandWord(line))])
  }

  /** A line whose command word is `blog`, the word help advertises, is answered
      with "Command not found", whatever arguments follow. */
  lemma BlogIsNotACommand(line: string, clock: Clock)
    requires CommandWord(line) == "blog"
    ensures Dispatch(line, clock) == Print([NotFoundLine("blog")])
  {
    assert Resolve(CommandWord(line)) == None;
  }

  /** `blogs` alone or `blogs list` lists the posts: a header, one line per post
      in order, a footer. */
  lemma BlogsListsPosts(line: string, clock: Clock)
    requires CommandWord(line) == "blogs" && (Args(line) == [] || Args(line)[0] == "list")
    ensures Dispatch(line, clock) == Print([BlogHeader] + PostLines(BlogPosts) + [BlogFooter])
  {
    assert Resolve(CommandWord(line)) == Some(Blogs);
  }

  /** `clear` empties the output area, the echo of the `clear` line included,
      whatever arguments follow it. */
  lemma ClearEmptiesOutput(line: string, output: seq<string>, clock: Clock)
    requires CommandWord(line) == "clear"
    ensures Apply(output, Dispatch(line, clock)) == []
  {
    assert Resolve(CommandWord(line)) == Some(Clear);
  }

  /** Each line of the blog listing names a post, and asking for that post's slug
      (typing it after `blogs`, or clicking the line's link) downloads that very
      post, announced by its title. */
  lemma ListedPostOpens(i: nat)
    requires i < |BlogPosts|
    ensures EndsWith(PostLines(BlogPosts)[i], BlogPosts[i].title)
    ensures var e := ShowBlog([BlogPosts[i].slug]);
      e.later == FetchPost(BlogPosts[i]) && e.lines == ["Opening blog: " + BlogPosts[i].title + "..."]
  {
    var line := PostLines(BlogPosts)[i];
    assert line[|line| - |BlogPosts[i].title|..] == BlogPosts[i].title;
  }

  // The lemmas below about particular words take the word as a parameter fixed
  // by `requires`: with all-literal arguments the verifier unfolds the string
  // functions character by character.

  /** The listing's footer tells the user to type `blog <slug>`, but following it,
      with a listed slug or any other, is answered with "Command not found". */
  lemma FooterInstructionFails(w: string, slug: string, clock: Clock)
    requires w == "blog"
    ensures Dispatch(w + " " + slug, clock) == Print([NotFoundLine("blog")])
  {
    WordThenRest(w, slug);
    BlogIsNotACommand(w + " " + slug, clock);
  }

  // ---------------------------------------------------------------------------
  // The lookup as written: property access on a plain object

  /** What a property read `commands[word]` finds on the table object: one of its
      own entries, the inherited `constructor` (the function `Object`), the
      inherited `__proto__` (the object `Object.prototype`, not callable), or
      nothing. The other inherited members of `Object.prototype` have upper-case
      letters in their names and cannot be reached by a lower-cased line. */
  datatype Property = Own(c: Command) | ObjectConstructor | ObjectPrototype | Absent

  function PropertyAsWritten(word: string): (p: Property)
    ensures p.Own? <==> word in Table
    ensures p == ObjectConstructor <==> word == "constructor"
    ensures p == ObjectPrototype <==> word == "__proto__"
  {
    if word in Table then Own(Table[word])
    else if word == "constructor" then ObjectConstructor
    else if word == "__proto__" then ObjectPrototype
    else Absent
  }

  /** Dispatch as written: any property that is present counts as a command. Calling
      `Object` prints nothing; calling `Object.prototype` throws a TypeError after
      the command has been echoed and recorded (`None`). */
  function DispatchAsWritten(line: string, clock: Clock): (r: Option<Effect>)
    ensures r.None? <==> CommandWord(line) == "__proto__"
  {
    match PropertyAsWritten(CommandWord(line))
    case Own(c) => Some(Handle(c, Args(line), clock))
    case ObjectConstructor => Some(Print([]))
    case ObjectPrototype => None
    case Absent => Some(Print([NotFoundLine(CommandWord(line))]))
  }

  /** Outside the two inherited names the lookup as written and `Dispatch` agree. */
  lemma AsWrittenAgreesElsewhere(line: string, clock: Clock)
    requires CommandWord(line) != "constructor" && CommandWord(line) != "__proto__"
    ensures DispatchAsWritten(line, clock) == Some(Dispatch(line, clock))
  {
  }

  /** The line `constructor` is not a registered command, yet as written it prints
      nothing where every other unregistered word prints "Command not found". */
  lemma ConstructorPrintsNothing(line: string, clock: Clock)
    requires line == "constructor"
    ensures DispatchAsWritten(line, clock) == Some(Print([]))
    ensures Dispatch(line, clock) == Print([NotFoundLine(line)])
  {
    WordAlone(line);
  }

  /** The line `__proto__` is not a registered command, yet as written it throws
      where every other unregistered word prints "Command not found". */
  lemma ProtoThrows(line: string, clock: Clock)
    requires line == "__proto__"
    ensures DispatchAsWritten(line, clock) == None
    ensures Dispatch(line, clock) == Print([NotFoundLine(line)])
  {
    WordAlone(line);
  }

  /** Both inherited names can be typed: normalising leaves them as they are. */
  lemma InheritedNamesSurviveNormalize(line: string)
    requires line == "constructor" || line == "__proto__"
    ensures Normalize(line) == line
  {
    NormalWord(line);
  }

  /** A word of lower-case letters and underscores is already normalised. */
  lemma NormalWord(w: string)
    requires w != [] && forall i :: 0 <= i < |w| ==> 'a' <= w[i] <= 'z' || w[i] == '_'
    ensures Normalize(w) == w
  {
    assert !IsJsSpace(w[0]) && !IsJsSpace(w[|w| - 1]);
    TrimFixpoint(w);
    assert Trim(w) == w;
    LowerFixpoint(w);
  }
}
