/**
 The component maintainer tables (data/maintainers-data.js): which
 WordPress.org usernames maintain each Trac component, and a profile (full
 name, profile URL, role) per maintainer.

 Both tables are held as enumerations with one function per column; a
 lookup by string key plays the part of indexing the JavaScript object.
 */
module Maintainers {
  import opened Text
  import opened Tables

  /** The maintainers that have a profile entry, one constructor per username. */
  datatype Maintainer =
      Audrasjb
    | Joedolson
    | Afercia
    | Gziolo
    | Ntsekouras
    | Youknowriad
    | Dd32
    | Johnbillion
    | Desrosj
    | Poena
    | Spacedmonkey
    | Jrf
    | Flixos90
    | Mukesh27
    | Joemcgill
    | Antpb
    | GarrettEclipse
    | Timothyblynjacobs
    | Sabernhardt

  const MaintainerCount: nat := 19

  /** A maintainer's position in the profile table. */
  function MaintainerOrdinal(m: Maintainer): nat {
    match m
    case Audrasjb => 0
    case Joedolson => 1
    case Afercia => 2
    case Gziolo => 3
    case Ntsekouras => 4
    case Youknowriad => 5
    case Dd32 => 6
    case Johnbillion => 7
    case Desrosj => 8
    case Poena => 9
    case Spacedmonkey => 10
    case Jrf => 11
    case Flixos90 => 12
    case Mukesh27 => 13
    case Joemcgill => 14
    case Antpb => 15
    case GarrettEclipse => 16
    case Timothyblynjacobs => 17
    case Sabernhardt => 18
  }

  /** The maintainer at a position of the profile table. */
  function MaintainerAt(i: nat): Option<Maintainer> {
    match i
    case 0 => Some(Audrasjb)
    case 1 => Some(Joedolson)
    case 2 => Some(Afercia)
    case 3 => Some(Gziolo)
    case 4 => Some(Ntsekouras)
    case 5 => Some(Youknowriad)
    case 6 => Some(Dd32)
    case 7 => Some(Johnbillion)
    case 8 => Some(Desrosj)
    case 9 => Some(Poena)
    case 10 => Some(Spacedmonkey)
    case 11 => Some(Jrf)
    case 12 => Some(Flixos90)
    case 13 => Some(Mukesh27)
    case 14 => Some(Joemcgill)
    case 15 => Some(Antpb)
    case 16 => Some(GarrettEclipse)
    case 17 => Some(Timothyblynjacobs)
    case 18 => Some(Sabernhardt)
    case _ => None
  }

  /** The WordPress.org username the profile is stored under. */
  function Username(m: Maintainer): string {
    match m
    case Audrasjb => "audrasjb"
    case Joedolson => "joedolson"
    case Afercia => "afercia"
    case Gziolo => "gziolo"
    case Ntsekouras => "ntsekouras"
    case Youknowriad => "youknowriad"
    case Dd32 => "dd32"
    case Johnbillion => "johnbillion"
    case Desrosj => "desrosj"
    case Poena => "poena"
    case Spacedmonkey => "spacedmonkey"
    case Jrf => "jrf"
    case Flixos90 => "flixos90"
    case Mukesh27 => "mukesh27"
    case Joemcgill => "joemcgill"
    case Antpb => "antpb"
    case GarrettEclipse => "garrett-eclipse"
    case Timothyblynjacobs => "timothyblynjacobs"
    case Sabernhardt => "sabernhardt"
  }

  /** The name shown for the maintainer. */
  function FullName(m: Maintainer): string {
    match m
    case Audrasjb => "Audrey Audrasjb"
    case Joedolson => "Joe Dolson"
    case Afercia => "Andrea Fercia"
    case Gziolo => "Grzegorz Ziółkowski"
    case Ntsekouras => "Nik Tsekouras"
    case Youknowriad => "Riad Benguella"
    case Dd32 => "Dion Hulse"
    case Johnbillion => "John Blackbourn"
    case Desrosj => "Jonathan Desrosiers"
    case Poena => "Carolina Nymark"
    case Spacedmonkey => "Jonny Harris"
    case Jrf => "Juliette Reinders Folmer"
    case Flixos90 => "Felix Arntz"
    case Mukesh27 => "Mukesh Panchal"
    case Joemcgill => "Joe McGill"
    case Antpb => "Anthony Burchell"
    case GarrettEclipse => "Garrett Hyder"
    case Timothyblynjacobs => "Timothy Jacobs"
    case Sabernhardt => "Stephen Bernhardt"
  }

  /** The maintainer's profile page. */
  function ProfileUrl(m: Maintainer): string {
    match m
    case Audrasjb => "https://profiles.wordpress.org/audrasjb/"
    case Joedolson => "https://profiles.wordpress.org/joedolson/"
    case Afercia => "https://profiles.wordpress.org/afercia/"
    case Gziolo => "https://profiles.wordpress.org/gziolo/"
    case Ntsekouras => "https://profiles.wordpress.org/ntsekouras/"
    case Youknowriad => "https://profiles.wordpress.org/youknowriad/"
    case Dd32 => "https://profiles.wordpress.org/dd32/"
    case Johnbillion => "https://profiles.wordpress.org/johnbillion/"
    case Desrosj => "https://profiles.wordpress.org/desrosj/"
    case Poena => "https://profiles.wordpress.org/poena/"
    case Spacedmonkey => "https://profiles.wordpress.org/spacedmonkey/"
    case Jrf => "https://profiles.wordpress.org/jrf/"
    case Flixos90 => "https://profiles.wordpress.org/flixos90/"
    case Mukesh27 => "https://profiles.wordpress.org/mukesh27/"
    case Joemcgill => "https://profiles.wordpress.org/joemcgill/"
    case Antpb => "https://profiles.wordpress.org/antpb/"
    case GarrettEclipse => "https://profiles.wordpress.org/garrett-eclipse/"
    case Timothyblynjacobs => "https://profiles.wordpress.org/timothyblynjacobs/"
    case Sabernhardt => "https://profiles.wordpress.org/sabernhardt/"
  }

  /** The role recorded in the profile. */
  function ProfileRole(m: Maintainer): string {
    match m
    case Audrasjb => "Core Committer"
    case Joedolson => "Accessibility Lead"
    case Afercia => "Core Contributor"
    case Gziolo => "Core Committer"
    case Ntsekouras => "Core Contributor"
    case Youknowriad => "Core Committer"
    case Dd32 => "Core Committer"
    case Johnbillion => "Core Committer"
    case Desrosj => "Core Committer"
    case Poena => "Core Contributor"
    case Spacedmonkey => "Core Committer"
    case Jrf => "Core Contributor"
    case Flixos90 => "Core Committer"
    case Mukesh27 => "Core Contributor"
    case Joemcgill => "Core Committer"
    case Antpb => "Core Contributor"
    case GarrettEclipse => "Core Contributor"
    case Timothyblynjacobs => "Core Contributor"
    case Sabernhardt => "Core Contributor"
  }

  /** The components of the maintainer table, one constructor per component name. */
  datatype Component =
      General
    | Accessibility
    | Administration
    | BlockEditor
    | BootstrapLoad
    | BuildTestTools
    | BundledTheme
    | CacheAPI
    | Canonical
    | CodingStandards
    | Comments
    | Customize
    | Database
    | DateTime
    | Embeds
    | ExternalLibraries
    | Feeds
    | FilesystemAPI
    | Formatting
    | Gallery
    | HTTPAPI
    | I18N
    | Import
    | InstallAndUpgrade
    | LoginAndRegistration
    | Mail
    | Media
    | Menus
    | NetworksAndSites
    | Performance
    | Plugins
    | PostFormats
    | PostsPostTypes
    | Privacy
    | Query
    | QuickBulkEdit
    | RESTAPI
    | Revisions
    | RewriteRules
    | RoleCapability
    | ScriptLoader
    | Security
    | Shortcodes
    | SiteHealth
    | Taxonomy
    | Template
    | Themes
    | TicketsWorkflow
    | TinyMCE
    | Toolbar
    | UpgradeInstall
    | Upload
    | Users
    | Widgets
    | XMLRPC

  const ComponentCount: nat := 55

  /** A component's position in the maintainer table. */
  function ComponentOrdinal(c: Component): nat {
    match c
    case General => 0
    case Accessibility => 1
    case Administration => 2
    case BlockEditor => 3
    case BootstrapLoad => 4
    case BuildTestTools => 5
    case BundledTheme => 6
    case CacheAPI => 7
    case Canonical => 8
    case CodingStandards => 9
    case Comments => 10
    case Customize => 11
    case Database => 12
    case DateTime => 13
    case Embeds => 14
    case ExternalLibraries => 15
    case Feeds => 16
    case FilesystemAPI => 17
    case Formatting => 18
    case Gallery => 19
    case HTTPAPI => 20
    case I18N => 21
    case Import => 22
    case InstallAndUpgrade => 23
    case LoginAndRegistration => 24
    case Mail => 25
    case Media => 26
    case Menus => 27
    case NetworksAndSites => 28
    case Performance => 29
    case Plugins => 30
    case PostFormats => 31
    case PostsPostTypes => 32
    case Privacy => 33
    case Query => 34
    case QuickBulkEdit => 35
    case RESTAPI => 36
    case Revisions => 37
    case RewriteRules => 38
    case RoleCapability => 39
    case ScriptLoader => 40
    case Security => 41
    case Shortcodes => 42
    case SiteHealth => 43
    case Taxonomy => 44
    case Template => 45
    case Themes => 46
    case TicketsWorkflow => 47
    case TinyMCE => 48
    case Toolbar => 49
    case UpgradeInstall => 50
    case Upload => 51
    case Users => 52
    case Widgets => 53
    case XMLRPC => 54
  }

  /** The component at a position of the maintainer table. */
  function ComponentAt(i: nat): Option<Component> {
    match i
    case 0 => Some(General)
    case 1 => Some(Accessibility)
    case 2 => Some(Administration)
    case 3 => Some(BlockEditor)
    case 4 => Some(BootstrapLoad)
    case 5 => Some(BuildTestTools)
    case 6 => Some(BundledTheme)
    case 7 => Some(CacheAPI)
    case 8 => Some(Canonical)
    case 9 => Some(CodingStandards)
    case 10 => Some(Comments)
    case 11 => Some(Customize)
    case 12 => Some(Database)
    case 13 => Some(DateTime)
    case 14 => Some(Embeds)
    case 15 => Some(ExternalLibraries)
    case 16 => Some(Feeds)
    case 17 => Some(FilesystemAPI)
    case 18 => Some(Formatting)
    case 19 => Some(Gallery)
    case 20 => Some(HTTPAPI)
    case 21 => Some(I18N)
    case 22 => Some(Import)
    case 23 => Some(InstallAndUpgrade)
    case 24 => Some(LoginAndRegistration)
    case 25 => Some(Mail)
    case 26 => Some(Media)
    case 27 => Some(Menus)
    case 28 => Some(NetworksAndSites)
    case 29 => Some(Performance)
    case 30 => Some(Plugins)
    case 31 => Some(PostFormats)
    case 32 => Some(PostsPostTypes)
    case 33 => Some(Privacy)
    case 34 => Some(Query)
    case 35 => Some(QuickBulkEdit)
    case 36 => Some(RESTAPI)
    case 37 => Some(Revisions)
    case 38 => Some(RewriteRules)
    case 39 => Some(RoleCapability)
    case 40 => Some(ScriptLoader)
    case 41 => Some(Security)
    case 42 => Some(Shortcodes)
    case 43 => Some(SiteHealth)
    case 44 => Some(Taxonomy)
    case 45 => Some(Template)
    case 46 => Some(Themes)
    case 47 => Some(TicketsWorkflow)
    case 48 => Some(TinyMCE)
    case 49 => Some(Toolbar)
    case 50 => Some(UpgradeInstall)
    case 51 => Some(Upload)
    case 52 => Some(Users)
    case 53 => Some(Widgets)
    case 54 => Some(XMLRPC)
    case _ => None
  }

  /** The component name as Trac shows it. */
  function ComponentName(c: Component): string {
    match c
    case General => "General"
    case Accessibility => "Accessibility"
    case Administration => "Administration"
    case BlockEditor => "Block Editor"
    case BootstrapLoad => "Bootstrap/Load"
    case BuildTestTools => "Build/Test Tools"
    case BundledTheme => "Bundled Theme"
    case CacheAPI => "Cache API"
    case Canonical => "Canonical"
    case CodingStandards => "Coding Standards"
    case Comments => "Comments"
    case Customize => "Customize"
    case Database => "Database"
    case DateTime => "Date/Time"
    case Embeds => "Embeds"
    case ExternalLibraries => "External Libraries"
    case Feeds => "Feeds"
    case FilesystemAPI => "Filesystem API"
    case Formatting => "Formatting"
    case Gallery => "Gallery"
    case HTTPAPI => "HTTP API"
    case I18N => "I18N"
    case Import => "Import"
    case InstallAndUpgrade => "Install and Upgrade"
    case LoginAndRegistration => "Login and Registration"
    case Mail => "Mail"
    case Media => "Media"
    case Menus => "Menus"
    case NetworksAndSites => "Networks and Sites"
    case Performance => "Performance"
    case Plugins => "Plugins"
    case PostFormats => "Post Formats"
    case PostsPostTypes => "Posts, Post Types"
    case Privacy => "Privacy"
    case Query => "Query"
    case QuickBulkEdit => "Quick/Bulk Edit"
    case RESTAPI => "REST API"
    case Revisions => "Revisions"
    case RewriteRules => "Rewrite Rules"
    case RoleCapability => "Role/Capability"
    case ScriptLoader => "Script Loader"
    case Security => "Security"
    case Shortcodes => "Shortcodes"
    case SiteHealth => "Site Health"
    case Taxonomy => "Taxonomy"
    case Template => "Template"
    case Themes => "Themes"
    case TicketsWorkflow => "Tickets/Workflow"
    case TinyMCE => "TinyMCE"
    case Toolbar => "Toolbar"
    case UpgradeInstall => "Upgrade/Install"
    case Upload => "Upload"
    case Users => "Users"
    case Widgets => "Widgets"
    case XMLRPC => "XML-RPC"
  }

  /** The maintainers listed for the component, in the order listed. */
  function Members(c: Component): seq<Maintainer> {
    match c
    case General => []
    case Accessibility => [Audrasjb, Joedolson, Afercia]
    case Administration => [Audrasjb, Joedolson]
    case BlockEditor => [Gziolo, Ntsekouras, Youknowriad]
    case BootstrapLoad => [Dd32]
    case BuildTestTools => [Johnbillion, Desrosj]
    case BundledTheme => [Audrasjb, Poena]
    case CacheAPI => [Spacedmonkey]
    case Canonical => []
    case CodingStandards => [Jrf]
    case Comments => []
    case Customize => []
    case Database => [Spacedmonkey]
    case DateTime => []
    case Embeds => []
    case ExternalLibraries => []
    case Feeds => []
    case FilesystemAPI => [Dd32]
    case Formatting => []
    case Gallery => []
    case HTTPAPI => [Dd32]
    case I18N => []
    case Import => []
    case InstallAndUpgrade => [Dd32, Desrosj]
    case LoginAndRegistration => []
    case Mail => []
    case Media => [Joedolson, Antpb]
    case Menus => []
    case NetworksAndSites => [Spacedmonkey]
    case Performance => [Flixos90, Mukesh27, Joemcgill]
    case Plugins => []
    case PostFormats => []
    case PostsPostTypes => []
    case Privacy => [GarrettEclipse]
    case Query => [Spacedmonkey]
    case QuickBulkEdit => []
    case RESTAPI => [Spacedmonkey, Timothyblynjacobs]
    case Revisions => []
    case RewriteRules => [Spacedmonkey]
    case RoleCapability => [Spacedmonkey]
    case ScriptLoader => []
    case Security => []
    case Shortcodes => []
    case SiteHealth => []
    case Taxonomy => [Spacedmonkey]
    case Template => []
    case Themes => [Audrasjb]
    case TicketsWorkflow => []
    case TinyMCE => []
    case Toolbar => []
    case UpgradeInstall => [Dd32, Desrosj]
    case Upload => []
    case Users => [Spacedmonkey]
    case Widgets => []
    case XMLRPC => []
  }

  /** The profile URL the sidebar builds for a username without a profile entry
      (content/trac-sidebar.js). */
  function ProfileFallback(username: string): (url: string)
    ensures StartsWith(url, "https://profiles.wordpress.org/") && EndsWith(url, "/")
    ensures |url| == |username| + 32
  {
    "https://profiles.wordpress.org/" + username + "/"
  }

  /** Every maintainer sits at its own position of the profile table. */
  lemma MaintainerOrdinalInRange(m: Maintainer)
    ensures MaintainerOrdinal(m) < MaintainerCount && MaintainerAt(MaintainerOrdinal(m)) == Some(m)
  {
  }

  /** Every component sits at its own position of the maintainer table. */
  lemma ComponentOrdinalInRange(c: Component)
    ensures ComponentOrdinal(c) < ComponentCount && ComponentAt(ComponentOrdinal(c)) == Some(c)
  {
    match c
    case General =>
    case Accessibility =>
    case Administration =>
    case BlockEditor =>
    case BootstrapLoad =>
    case BuildTestTools =>
    case BundledTheme =>
    case CacheAPI =>
    case Canonical =>
    case CodingStandards =>
    case Comments =>
    case Customize =>
    case Database =>
    case DateTime =>
    case Embeds =>
    case ExternalLibraries =>
    case Feeds =>
    case FilesystemAPI =>
    case Formatting =>
    case Gallery =>
    case HTTPAPI =>
    case I18N =>
    case Import =>
    case InstallAndUpgrade =>
    case LoginAndRegistration =>
    case Mail =>
    case Media =>
    case Menus =>
    case NetworksAndSites =>
    case Performance =>
    case Plugins =>
    case PostFormats =>
    case PostsPostTypes =>
    case Privacy =>
    case Query =>
    case QuickBulkEdit =>
    case RESTAPI =>
    case Revisions =>
    case RewriteRules =>
    case RoleCapability =>
    case ScriptLoader =>
    case Security =>
    case Shortcodes =>
    case SiteHealth =>
    case Taxonomy =>
    case Template =>
    case Themes =>
    case TicketsWorkflow =>
    case TinyMCE =>
    case Toolbar =>
    case UpgradeInstall =>
    case Upload =>
    case Users =>
    case Widgets =>
    case XMLRPC =>
  }

  /** A MAINTAINER_PROFILES entry. */
  datatype MaintainerProfile = MaintainerProfile(name: string, profile: string, role: string)

  /** The maintainer whose profile is stored under `username`, if any. */
  function FindMaintainer(username: string): (r: Option<Maintainer>)
    ensures r.Some? ==> Username(r.value) == username
    ensures r.None? <==> forall m :: Username(m) != username
  {
    forall m
      ensures MaintainerOrdinal(m) < MaintainerCount && MaintainerAt(MaintainerOrdinal(m)) == Some(m)
    {
      MaintainerOrdinalInRange(m);
    }
    FindKeyComplete(MaintainerAt, Username, MaintainerOrdinal, MaintainerCount, username);
    FindKey(MaintainerAt, Username, MaintainerCount, 0, username)
  }

  /** MAINTAINER_PROFILES[username]. */
  function MaintainerProfiles(username: string): (r: Option<MaintainerProfile>)
    ensures r.Some? <==> exists m :: Username(m) == username
    ensures r.Some? ==> exists m :: Username(m) == username && r.value.profile == ProfileUrl(m)
  {
    match FindMaintainer(username)
    case Some(m) => Some(MaintainerProfile(FullName(m), ProfileUrl(m), ProfileRole(m)))
    case None => None
  }

  /** The component stored under `name`, if any. */
  function FindComponent(name: string): (r: Option<Component>)
    ensures r.Some? ==> ComponentName(r.value) == name
    ensures r.None? <==> forall c :: ComponentName(c) != name
  {
    forall c
      ensures ComponentOrdinal(c) < ComponentCount && ComponentAt(ComponentOrdinal(c)) == Some(c)
    {
      ComponentOrdinalInRange(c);
    }
    FindKeyComplete(ComponentAt, ComponentName, ComponentOrdinal, ComponentCount, name);
    FindKey(ComponentAt, ComponentName, ComponentCount, 0, name)
  }

  /** The usernames of a list of maintainers, in order. */
  function Usernames(ms: seq<Maintainer>): (us: seq<string>)
    ensures |us| == |ms| && forall i :: 0 <= i < |ms| ==> us[i] == Username(ms[i])
  {
    seq(|ms|, i requires 0 <= i < |ms| => Username(ms[i]))
  }

  /** COMPONENT_MAINTAINERS[name]: the usernames listed for the component, or none for a
      name that is not in the table. */
  function ComponentMaintainers(name: string): (r: Option<seq<string>>)
    ensures r.Some? <==> exists c :: ComponentName(c) == name
    ensures r.Some? ==> exists c :: ComponentName(c) == name && r.value == Usernames(Members(c))
  {
    match FindComponent(name)
    case Some(c) => Some(Usernames(Members(c)))
    case None => None
  }

  /** Every username listed under a component has a profile entry. */
  lemma ListedMaintainersHaveProfiles(name: string, username: string)
    requires ComponentMaintainers(name).Some? && username in ComponentMaintainers(name).value
    ensures MaintainerProfiles(username).Some?
  {
    var c := FindComponent(name).value;
    var i :| 0 <= i < |Members(c)| && Usernames(Members(c))[i] == username;
    assert Username(Members(c)[i]) == username;
  }

  /** Every stored profile URL is the URL the sidebar would build from the username. */
  lemma ProfileUrlsCanonical()
    ensures forall m :: ProfileUrl(m) == ProfileFallback(Username(m))
  {
    ProfileUrlsCanonicalA();
    ProfileUrlsCanonicalB();
    ProfileUrlsCanonicalC();
    ProfileUrlsCanonicalD();
    ProfileUrlsCanonicalE();
    ProfileUrlsCanonicalF();
    ProfileUrlsCanonicalG();
    ProfileUrlsCanonicalH();
    ProfileUrlsCanonicalI();
    ProfileUrlsCanonicalJ();
  }

  // The profiles checked two at a time, which keeps each obligation small.
  lemma ProfileUrlsCanonicalA()
    ensures ProfileUrl(Audrasjb) == ProfileFallback(Username(Audrasjb))
    ensures ProfileUrl(Joedolson) == ProfileFallback(Username(Joedolson))
  {
  }

  lemma ProfileUrlsCanonicalB()
    ensures ProfileUrl(Afercia) == ProfileFallback(Username(Afercia))
    ensures ProfileUrl(Gziolo) == ProfileFallback(Username(Gziolo))
  {
  }

  lemma ProfileUrlsCanonicalC()
    ensures ProfileUrl(Ntsekouras) == ProfileFallback(Username(Ntsekouras))
    ensures ProfileUrl(Youknowriad) == ProfileFallback(Username(Youknowriad))
  {
  }

  lemma ProfileUrlsCanonicalD()
    ensures ProfileUrl(Dd32) == ProfileFallback(Username(Dd32))
    ensures ProfileUrl(Johnbillion) == ProfileFallback(Username(Johnbillion))
  {
  }

  lemma ProfileUrlsCanonicalE()
    ensures ProfileUrl(Desrosj) == ProfileFallback(Username(Desrosj))
    ensures ProfileUrl(Poena) == ProfileFallback(Username(Poena))
  {
  }

  lemma ProfileUrlsCanonicalF()
    ensures ProfileUrl(Spacedmonkey) == ProfileFallback(Username(Spacedmonkey))
    ensures ProfileUrl(Jrf) == ProfileFallback(Username(Jrf))
  {
  }

  lemma ProfileUrlsCanonicalG()
    ensures ProfileUrl(Flixos90) == ProfileFallback(Username(Flixos90))
    ensures ProfileUrl(Mukesh27) == ProfileFallback(Username(Mukesh27))
  {
  }

  lemma ProfileUrlsCanonicalH()
    ensures ProfileUrl(Joemcgill) == ProfileFallback(Username(Joemcgill))
    ensures ProfileUrl(Antpb) == ProfileFallback(Username(Antpb))
  {
  }

  lemma ProfileUrlsCanonicalI()
    ensures ProfileUrl(GarrettEclipse) == ProfileFallback(Username(GarrettEclipse))
    ensures ProfileUrl(Timothyblynjacobs) == ProfileFallback(Username(Timothyblynjacobs))
  {
  }

  lemma ProfileUrlsCanonicalJ()
    ensures ProfileUrl(Sabernhardt) == ProfileFallback(Username(Sabernhardt))
  {
  }

  /** No component lists the same username twice. */
  lemma NoDuplicateMaintainers()
    ensures forall c, i, j :: 0 <= i < j < |Members(c)| ==> Username(Members(c)[i]) != Username(Members(c)[j])
  {
  }
}
