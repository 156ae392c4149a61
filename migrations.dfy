/** The eleven registered schema migrations of the app's store, each as the ordered list of
    statements its `migrate` body hands to `execSQL`. Names, columns, keys, NOT NULL
    declarations, literals and WHERE clauses are those of the SQL text. */
module Migrations {
  import opened Sql

  // ---------------------------------------------------------------------------------------
  // Table and view names

  const AppInfo := "AppInfo"
  const AppInfoBackup := "AppInfo_backup"
  const AppInfoView := "AppInfoView"
  const CategoryInfo := "CategoryInfo"
  const ConnectionTracker := "ConnectionTracker"
  const ConnectionTrackerBackup := "ConnectionTracker_backup"
  const BlockedConnections := "BlockedConnections"
  const CustomIp := "CustomIp"
  const DoHEndpoint := "DoHEndpoint"
  const DnsCryptEndpoint := "DNSCryptEndpoint"
  const DnsCryptRelayEndpoint := "DNSCryptRelayEndpoint"
  const DnsProxyEndpoint := "DNSProxyEndpoint"
  const ProxyEndpoint := "ProxyEndpoint"
  const DnsLogs := "DNSLogs"
  const CustomDomain := "CustomDomain"
  const RethinkDnsEndpoint := "RethinkDnsEndpoint"

  // ---------------------------------------------------------------------------------------
  // Schemas created by the migrations

  const CategoryInfoColumns: seq<string> := ["categoryName", "numberOFApps", "numOfAppsBlocked", "isInternetBlocked"]

  /** ConnectionTracker as created by 2 -> 3. */
  const TrackerColumnsV3: seq<string> :=
    ["id", "appName", "uid", "ipAddress", "port", "protocol", "isBlocked", "flag", "timeStamp"]

  const BlockedConnectionsColumns: seq<string> := ["id", "uid", "ipAddress", "port", "protocol"]

  const DohColumns: seq<string> :=
    ["id", "dohName", "dohURL", "dohExplanation", "isSelected", "isCustom", "modifiedDataTime", "latency"]
  const DohNotNull: set<string> :=
    {"id", "dohName", "dohURL", "isSelected", "isCustom", "modifiedDataTime", "latency"}

  const DnsCryptColumns: seq<string> :=
    ["id", "dnsCryptName", "dnsCryptURL", "dnsCryptExplanation", "isSelected", "isCustom", "modifiedDataTime", "latency"]
  const DnsCryptRelayColumns: seq<string> :=
    ["id", "dnsCryptRelayName", "dnsCryptRelayURL", "dnsCryptRelayExplanation", "isSelected", "isCustom", "modifiedDataTime", "latency"]

  const DnsProxyColumns: seq<string> :=
    ["id", "proxyName", "proxyType", "proxyAppName", "proxyIP", "proxyPort", "isSelected", "isCustom", "modifiedDataTime", "latency"]
  const DnsProxyNotNull: set<string> :=
    {"id", "proxyName", "proxyType", "proxyPort", "isSelected", "isCustom", "modifiedDataTime", "latency"}

  const ProxyColumns: seq<string> :=
    ["id", "proxyName", "proxyMode", "proxyType", "proxyAppName", "proxyIP", "userName", "password", "proxyPort",
     "isSelected", "isCustom", "isUDP", "modifiedDataTime", "latency"]

  const DnsLogColumns: seq<string> :=
    ["id", "queryStr", "time", "flag", "resolver", "latency", "typeName", "isBlocked", "blockLists", "serverIP",
     "relayIP", "responseTime", "response", "status", "dnsType"]

  const CustomDomainColumns: seq<string> := ["domain", "ips", "status", "createdTs", "deletedTs", "version"]

  /** AppInfo_backup, of which the rebuilt AppInfo keeps the first eleven columns. */
  const AppInfoBackupColumns: seq<string> :=
    ["packageInfo", "appName", "uid", "isSystemApp", "firewallStatus", "appCategory", "wifiDataUsed",
     "mobileDataUsed", "metered", "screenOffAllowed", "backgroundAllowed", "isInternetAllowed", "whiteListUniv1",
     "isExcluded"]
  const AppInfoColumns: seq<string> := AppInfoBackupColumns[..11]

  const CustomIpColumns: seq<string> :=
    ["uid", "ipAddress", "port", "protocol", "isActive", "status", "ruleType", "wildcard", "modifiedDateTime"]
  const CustomIpKey: seq<string> := ["uid", "ipAddress", "port", "protocol"]

  /** ConnectionTracker (and its backup) as rebuilt by 11 -> 12; only `dnsQuery` may be NULL. */
  const TrackerColumns: seq<string> :=
    ["id", "appName", "uid", "ipAddress", "port", "protocol", "isBlocked", "blockedByRule", "flag", "dnsQuery", "timeStamp"]
  const TrackerNotNull: set<string> := AllOf(TrackerColumns) - {"dnsQuery"}

  const RethinkDnsColumns: seq<string> := ["name", "url", "uid", "desc", "isActive", "isCustom", "latency", "modifiedDataTime"]

  /** Every column of `columns` is declared NOT NULL. */
  function AllOf(columns: seq<string>): set<string> {
    set c | c in columns
  }

  // ---------------------------------------------------------------------------------------
  // Seed rows

  /** A DoHEndpoint row as the migrations insert it: not custom, no modification time, no latency. */
  function DohSeed(id: int, name: string, url: string, explanation: string, selected: int): (r: seq<Value>)
    ensures |r| == |DohColumns| && r[0] == Int(id) && forall i | 0 <= i < |r| :: r[i] != Null
  {
    [Int(id), Text(name), Text(url), Text(explanation), Int(selected), Int(0), Int(0), Int(0)]
  }

  /** A DNSProxyEndpoint row as the migrations insert it: an external resolver on port 53. */
  function ProxySeed(id: int, name: string, ip: string): (r: seq<Value>)
    ensures |r| == |DnsProxyColumns| && r[0] == Int(id) && forall i | 0 <= i < |r| :: r[i] != Null
  {
    [Int(id), Text(name), Text("External"), Text("Nobody"), Text(ip), Int(53), Int(0), Int(0), Int(0), Int(0)]
  }

  function ById(id: int): Cond {
    Eq("id", Int(id))
  }

  // ---------------------------------------------------------------------------------------
  // The migrations

  /** MIGRATION_1_2 as written. */
  const Migration1To2: seq<Stmt> := [
    DeleteWhere(AppInfo, Always),
    DeleteWhere(CategoryInfo, Always),
    CreateTable(CategoryInfo, CategoryInfoColumns, ["categoryName"], AllOf(CategoryInfoColumns))
  ]

  /** MIGRATION_1_2 as evidently intended: clear AppInfo and start CategoryInfo afresh. */
  const Migration1To2Corrected: seq<Stmt> := [
    DeleteWhere(AppInfo, Always),
    DropTable(CategoryInfo, true),
    CreateTable(CategoryInfo, CategoryInfoColumns, ["categoryName"], AllOf(CategoryInfoColumns))
  ]

  const Migration2To3: seq<Stmt> := [
    DeleteWhere(AppInfo, Always),
    DeleteWhere(CategoryInfo, Always),
    DropTable(ConnectionTracker, true),
    CreateTable(ConnectionTracker, TrackerColumnsV3, ["id"], {"id", "uid", "port", "protocol", "isBlocked", "timeStamp"}),
    CreateTable(BlockedConnections, BlockedConnectionsColumns, ["id"], {"id", "uid", "port"})
  ]

  /** 3 -> 4, BlockedConnections: rule columns, universal-firewall rows marked RULE5. */
  const BlockedConnectionsRules: seq<Stmt> := [
    AddColumn(BlockedConnections, "isActive", Int(1), true),
    AddColumn(BlockedConnections, "ruleType", Text("RULE4"), true),
    AddColumn(BlockedConnections, "modifiedDateTime", Int(0), true),
    UpdateWhere(BlockedConnections, Eq("uid", Int(-1000)), SetTo("ruleType", Text("RULE5")))
  ]

  /** 3 -> 4, ConnectionTracker: the rule that blocked each blocked connection. */
  const ConnectionTrackerRules: seq<Stmt> := [
    AddColumn(ConnectionTracker, "blockedByRule", Null, false),
    UpdateWhere(ConnectionTracker, Both(Ne("uid", Int(-1000)), Eq("isBlocked", Int(1))), SetTo("blockedByRule", Text("RULE4"))),
    UpdateWhere(ConnectionTracker, Both(Eq("uid", Int(-1000)), Eq("isBlocked", Int(1))), SetTo("blockedByRule", Text("RULE5")))
  ]

  /** 3 -> 4, AppInfo: whitelist and exclusion flags, all off. */
  const AppInfoFlags: seq<Stmt> := [
    AddColumn(AppInfo, "whiteListUniv1", Int(0), true),
    AddColumn(AppInfo, "whiteListUniv2", Int(0), true),
    AddColumn(AppInfo, "isExcluded", Int(0), true)
  ]

  /** 3 -> 4, the endpoint catalog tables. */
  const EndpointTables: seq<Stmt> := [
    CreateTable(DoHEndpoint, DohColumns, ["id"], DohNotNull),
    CreateTable(DnsCryptEndpoint, DnsCryptColumns, ["id"],
                {"id", "dnsCryptName", "dnsCryptURL", "isSelected", "isCustom", "modifiedDataTime", "latency"}),
    CreateTable(DnsCryptRelayEndpoint, DnsCryptRelayColumns, ["id"],
                {"id", "dnsCryptRelayName", "dnsCryptRelayURL", "isSelected", "isCustom", "modifiedDataTime", "latency"}),
    CreateTable(DnsProxyEndpoint, DnsProxyColumns, ["id"], DnsProxyNotNull),
    CreateTable(ProxyEndpoint, ProxyColumns, ["id"],
                {"id", "proxyName", "proxyMode", "proxyType", "proxyPort", "isSelected", "isCustom", "isUDP",
                 "modifiedDataTime", "latency"})
  ]

  /** 3 -> 4, the first DoH catalog, upserted by id. */
  const SeedDohEndpoints: seq<Stmt> := [
    InsertOrReplace(DoHEndpoint, DohSeed(1, "Cloudflare", "https://cloudflare-dns.com/dns-query",
      "Does not block any DNS requests. Uses Cloudflare's 1.1.1.1 DNS endpoint.", 0)),
    InsertOrReplace(DoHEndpoint, DohSeed(2, "Cloudflare Family", "https://family.cloudflare-dns.com/dns-query",
      "Blocks malware and adult content. Uses Cloudflare's 1.1.1.3 DNS endpoint.", 0)),
    InsertOrReplace(DoHEndpoint, DohSeed(3, "Cloudflare Security", "https://security.cloudflare-dns.com/dns-query",
      "Blocks malicious content. Uses Cloudflare's 1.1.1.2 DNS endpoint.", 0)),
    InsertOrReplace(DoHEndpoint, DohSeed(4, "RethinkDNS Basic (default)", "https://basic.bravedns.com/1:YBcgAIAQIAAIAABgIAA=",
      "Blocks malware and more. Uses RethinkDNS's non-configurable basic endpoint.", 1)),
    InsertOrReplace(DoHEndpoint, DohSeed(5, "RethinkDNS Plus", "https://basic.bravedns.com/",
      "Configurable DNS endpoint: Provides in-depth analytics of your Internet traffic, allows you to set custom rules and more.", 0))
  ]

  const Migration3To4: seq<Stmt> :=
    BlockedConnectionsRules + ConnectionTrackerRules + AppInfoFlags + EndpointTables + SeedDohEndpoints

  const Migration4To5: seq<Stmt> := [
    DeleteWhere(DnsProxyEndpoint, Always),
    UpdateWhere(DoHEndpoint, ById(4), SetTo("dohURL", Text("https://basic.bravedns.com/1:wBdgAIoBoB02kIAA5HI="))),
    UpdateWhere(DnsCryptEndpoint, ById(5), map[
      "dnsCryptName" := Lit(Text("Quad9")),
      "dnsCryptURL" := Lit(Text("sdns://AQYAAAAAAAAAEzE0OS4xMTIuMTEyLjEwOjg0NDMgZ8hHuMh1jNEgJFVDvnVnRt803x2EwAuMRwNo34Idhj4ZMi5kbnNjcnlwdC1jZXJ0LnF1YWQ5Lm5ldA")),
      "dnsCryptExplanation" := Lit(Text("Quad9 (anycast) no-dnssec/no-log/no-filter 9.9.9.10 / 149.112.112.10"))]),
    Insert(DnsProxyEndpoint, ProxySeed(1, "Google", "8.8.8.8")),
    Insert(DnsProxyEndpoint, ProxySeed(2, "Cloudflare", "1.1.1.1")),
    Insert(DnsProxyEndpoint, ProxySeed(3, "Quad9", "9.9.9.9")),
    UpdateWhere(DnsCryptEndpoint, ById(1), SetTo("dnsCryptName", Text("Cleanbrowsing Family"))),
    UpdateWhere(DnsCryptEndpoint, ById(2), SetTo("dnsCryptName", Text("Adguard"))),
    UpdateWhere(DnsCryptEndpoint, ById(3), SetTo("dnsCryptName", Text("Adguard Family"))),
    UpdateWhere(DnsCryptEndpoint, ById(4), SetTo("dnsCryptName", Text("Cleanbrowsing Security"))),
    UpdateWhere(DnsCryptRelayEndpoint, ById(1), SetTo("dnsCryptRelayName", Text("Anon-AMS-NL"))),
    UpdateWhere(DnsCryptRelayEndpoint, ById(2), SetTo("dnsCryptRelayName", Text("Anon-CS-FR"))),
    UpdateWhere(DnsCryptRelayEndpoint, ById(3), SetTo("dnsCryptRelayName", Text("Anon-CS-SE"))),
    UpdateWhere(DnsCryptRelayEndpoint, ById(4), SetTo("dnsCryptRelayName", Text("Anon-CS-USCA"))),
    UpdateWhere(DnsCryptRelayEndpoint, ById(5), SetTo("dnsCryptRelayName", Text("Anon-Tiarap")))
  ]

  const Migration5To6: seq<Stmt> := [
    CreateTable(DnsLogs, DnsLogColumns, ["id"], AllOf(DnsLogColumns)),
    UpdateWhere(DoHEndpoint, ById(4), SetTo("dohURL", Text("https://basic.bravedns.com/1:YBcgAIAQIAAIAABgIAA="))),
    UpdateWhere(DnsCryptEndpoint, ById(5), map[
      "dnsCryptName" := Lit(Text("Quad9")),
      "dnsCryptURL" := Lit(Text("sdns://AQMAAAAAAAAADDkuOS45Ljk6ODQ0MyBnyEe4yHWM0SAkVUO-dWdG3zTfHYTAC4xHA2jfgh2GPhkyLmRuc2NyeXB0LWNlcnQucXVhZDkubmV0")),
      "dnsCryptExplanation" := Lit(Text("Quad9 (anycast) dnssec/no-log/filter 9.9.9.9 / 149.112.112.9"))]),
    AddColumn(CategoryInfo, "numOfAppWhitelisted", Int(0), true),
    AddColumn(CategoryInfo, "numOfAppsExcluded", Int(0), true),
    UpdateWhere(DnsCryptRelayEndpoint, ById(1), SetTo("dnsCryptRelayName", Text("Netherlands"))),
    UpdateWhere(DnsCryptRelayEndpoint, ById(2), SetTo("dnsCryptRelayName", Text("France"))),
    UpdateWhere(DnsCryptRelayEndpoint, ById(3), SetTo("dnsCryptRelayName", Text("Sweden"))),
    UpdateWhere(DnsCryptRelayEndpoint, ById(4), SetTo("dnsCryptRelayName", Text("US - Los Angeles, CA"))),
    UpdateWhere(DnsCryptRelayEndpoint, ById(5), SetTo("dnsCryptRelayName", Text("Singapore")))
  ]

  const Migration6To7: seq<Stmt> := [
    UpdateWhere(DoHEndpoint, ById(3), SetTo("dohURL", Text("https://security.cloudflare-dns.com/dns-query"))),
    UpdateWhere(DoHEndpoint, ById(4), SetTo("dohURL", Text("https://basic.bravedns.com/1:YBcgAIAQIAAIAABgIAA=")))
  ]

  const Migration7To8: seq<Stmt> := [
    CreateView(AppInfoView),
    UpdateWhere(AppInfo, Eq("uid", Int(0)), SetTo("appCategory", Text("System Components"))),
    DeleteWhere(AppInfo, Both(Eq("appName", Text("ANDROID")), Eq("appCategory", Text("System Components"))))
  ]

  const Migration8To9: seq<Stmt> := [
    UpdateWhere(DoHEndpoint, ById(4), SetTo("dohURL", Text("https://basic.bravedns.com/1:YASAAQBwIAA=")))
  ]

  const Migration9To10: seq<Stmt> := [
    UpdateWhere(DoHEndpoint, ById(4), SetTo("dohURL", Text("https://basic.bravedns.com/1:IAAgAA==")))
  ]

  const Migration10To11: seq<Stmt> := [
    AddColumn(DnsLogs, "responseIps", Text(""), true),
    CreateTable(CustomDomain, CustomDomainColumns, ["domain"], AllOf(CustomDomainColumns))
  ]

  // 11 -> 12 and its helpers

  const RemoveRethinkFromDohList: seq<Stmt> := [
    DeleteWhere(DoHEndpoint, OneOf("id", [Int(4), Int(5)]))
  ]

  const AddMoreDohToList: seq<Stmt> := [
    InsertOrReplace(DoHEndpoint, DohSeed(4, "Google", "https://dns.google/dns-query",
      "Traditional DNS queries and replies are sent over UDP or TCP without encryption, making them subject to surveillance, spoofing, and DNS-based Internet filtering.", 0)),
    InsertOrReplace(DoHEndpoint, DohSeed(5, "CleanBrowsing Family", "https://doh.cleanbrowsing.org/doh/family-filter/",
      "Family filter blocks access to all adult, pornographic and explicit sites. It also blocks proxy and VPN domains that could be used to bypass our filters. Mixed content sites (like Reddit) are also blocked. Google, Bing and Youtube are set to the Safe Mode.", 0)),
    InsertOrReplace(DoHEndpoint, DohSeed(6, "CleanBrowsing Adult", "https://doh.cleanbrowsing.org/doh/adult-filter/",
      "Adult filter blocks access to all adult, pornographic and explicit sites. It does not block proxy or VPNs, nor mixed-content sites. Sites like Reddit are allowed. Google and Bing are set to the Safe Mode.", 0)),
    InsertOrReplace(DoHEndpoint, DohSeed(7, "Quad9 Secure", "https://dns.quad9.net/dns-query",
      "Quad9 routes your DNS queries through a secure network of servers around the globe.", 0))
  ]

  /** The row `addNetworkDns` puts at id 1. */
  const NetworkDns: seq<Value> := ProxySeed(1, "Network DNS", "")

  /** Shift ids 1..3 up by one, highest first, then insert the network resolver at id 1. */
  const AddNetworkDns: seq<Stmt> := [
    UpdateWhere(DnsProxyEndpoint, ById(3), SetTo("id", Int(4))),
    UpdateWhere(DnsProxyEndpoint, ById(2), SetTo("id", Int(3))),
    UpdateWhere(DnsProxyEndpoint, ById(1), SetTo("id", Int(2))),
    Insert(DnsProxyEndpoint, NetworkDns)
  ]

  /** The select list copying AppInfo into AppInfo_backup. */
  const AppInfoToBackup: seq<Expr> := [
    Col("packageInfo"), Col("appName"), Col("uid"), Col("isSystemApp"), Lit(Int(0)), Col("appCategory"),
    Col("wifiDataUsed"), Col("mobileDataUsed"), Lit(Int(0)), Col("isScreenOff"), Col("isBackgroundEnabled"),
    Col("isInternetAllowed"), Col("whiteListUniv1"), Col("isExcluded")
  ]

  function Cols(columns: seq<string>): seq<Expr> {
    seq(|columns|, i requires 0 <= i < |columns| => Col(columns[i]))
  }

  /** Rebuild AppInfo through AppInfo_backup, folding the three flags into `firewallStatus`. */
  const ModifyAppInfoTableSchema: seq<Stmt> := [
    CreateTable(AppInfoBackup, AppInfoBackupColumns, ["packageInfo"], AllOf(AppInfoBackupColumns)),
    CopyRows(AppInfo, AppInfoBackup, AppInfoToBackup),
    UpdateWhere(AppInfoBackup, Eq("isInternetAllowed", Int(1)), SetTo("firewallStatus", Int(2))),
    UpdateWhere(AppInfoBackup, Eq("whiteListUniv1", Int(1)), SetTo("firewallStatus", Int(3))),
    UpdateWhere(AppInfoBackup, Eq("isExcluded", Int(1)), SetTo("firewallStatus", Int(4))),
    DropTable(AppInfo, true),
    CreateTable(AppInfo, AppInfoColumns, ["packageInfo"], AllOf(AppInfoColumns)),
    CopyRows(AppInfoBackup, AppInfo, Cols(AppInfoColumns)),
    DropTable(AppInfoBackup, false)
  ]

  const BlockedToCustomIp: seq<Expr> := [
    Col("uid"), Col("ipAddress"), Col("port"), Col("protocol"), Col("isActive"), Lit(Int(1)), Lit(Int(0)),
    Lit(Int(0)), Col("modifiedDateTime")
  ]

  /** Rename BlockedConnections to CustomIp, keyed by the rule's (uid, ipAddress, port, protocol). */
  const ModifyBlockedConnectionsTable: seq<Stmt> := [
    CreateTable(CustomIp, CustomIpColumns, CustomIpKey, AllOf(CustomIpColumns)),
    CopyRows(BlockedConnections, CustomIp, BlockedToCustomIp),
    DropTable(BlockedConnections, true)
  ]

  /** The select list of both ConnectionTracker copies: every column, with an empty `dnsQuery`. */
  const TrackerCopy: seq<Expr> := [
    Col("id"), Col("appName"), Col("uid"), Col("ipAddress"), Col("port"), Col("protocol"), Col("isBlocked"),
    Col("blockedByRule"), Col("flag"), Lit(Text("")), Col("timeStamp")
  ]

  /** Rebuild ConnectionTracker through ConnectionTracker_backup to make its columns NOT NULL. */
  const ModifyConnectionTrackerTable: seq<Stmt> := [
    CreateTable(ConnectionTrackerBackup, TrackerColumns, ["id"], TrackerNotNull),
    CopyRows(ConnectionTracker, ConnectionTrackerBackup, TrackerCopy),
    DropTable(ConnectionTracker, true),
    CreateTable(ConnectionTracker, TrackerColumns, ["id"], TrackerNotNull),
    CopyRows(ConnectionTrackerBackup, ConnectionTracker, TrackerCopy),
    DropTable(ConnectionTrackerBackup, true)
  ]

  const CreateRethinkDnsTable: seq<Stmt> := [
    CreateTable(RethinkDnsEndpoint, RethinkDnsColumns, ["name", "uid"], AllOf(RethinkDnsColumns))
  ]

  /** The statements 11 -> 12 issues itself, between the helper calls. */
  const RetireViewsAndRewriteUrls: seq<Stmt> := [
    DropView(AppInfoView),
    DropTable(CategoryInfo, true),
    UpdateWhere(DoHEndpoint, Always, map["dohURL" := ReplaceIn("dohURL", "bravedns", "rethinkdns")]),
    AddColumn(CustomDomain, "wildcard", Int(0), true)
  ]

  const Migration11To12: seq<Stmt> :=
    RemoveRethinkFromDohList + AddMoreDohToList + ModifyAppInfoTableSchema + ModifyBlockedConnectionsTable
    + AddNetworkDns + RetireViewsAndRewriteUrls + ModifyConnectionTrackerTable + CreateRethinkDnsTable
}
