# A verified model of the IBM Cloud VPC rules of `tflint-ruleset-ibm`

`tflint-ruleset-ibm` is a TFLint plugin. Each of its 87 rule files under `rules/`
defines one `Check`. A `Check`:

- fetches the blocks of one `ibm_is_*` resource type through `runner.GetResourceContent`;
- walks each resource and its nested blocks;
- calls `runner.EmitIssue(rule, message, range)` once for every constraint a block breaks;
- returns the first error met while fetching the content or evaluating an expression.

This project models every one of those `Check` functions and their `validate*` helpers, the list
projector `EachStringSliceExprs` of `ibm/runner.go`, and the pure format validators the rules call.
It then proves what they promise.

## Layout

All sources are under `src/`.

| file | module | contents |
|---|---|---|
| `wrappers.dfy` | `Wrappers` | `Option` and `Result` |
| `hcl.dfy` | `Hcl` | The parsed configuration as the host hands it over: `Block` (attributes by name, nested blocks, `DefRange`), `Expr`, `Range`, and `Env`, the host's expression evaluator. `Env` has one oracle per Go target type, plus the answer of `net.ParseIP`. |
| `tflint.dfy` | `Tflint` | `Issue`, `Message` and `Outcome` (the issues a piece of a `Check` emits and the error it returns), composed with `Then` and `ForEach`. Also the `Runner` class, whose `issues` field `EmitIssue` appends to. |
| `checks.dfy` | `Checks` | The constraint shapes the rules repeat: required attributes, enums, ranges, name length, attribute pairs, conditional requirements, nested-block presence, and element loops that stop at the first bad element or report every bad element. Each shape has a specification function, a method that runs it against the runner, and a lemma that states when it is silent. |
| `validators.dfy` | `Validators` | `isValidCIDR`, `isValidZone`, `isValidCronSpec`, `isValidTimeout`, `isValidCOSURL`, `isValidIPv4`, `isPowerOfTwo` and `isValidPublicKey`, with `strings.TrimSpace` and `strings.Fields` written out. |
| `membership.dfy` | `Membership` | `validateMembershipCounts`, which the two instance group manager rules share. |
| `projector.dfy` | `Projector` | `EachStringSliceExprs`. |
| `rule_<name>.dfy` | one per rule | The rule of `rules/rule_ibm_is_<name>.go`. |

## How each rule is modelled

Each rule module holds the following pieces.

- `ResourceIssues(b, env)` is a function giving the `Outcome` of one resource: its issues in emission order and the error that ends its check, if any. It is a chain of `Then` steps in the order of the Go code.
- `CheckResource` and `Check` are methods, with the loops of the Go code.
  - Their postcondition says the runner's issue list grew by exactly the issues of `ResourceIssues`, or of `RunRule` over all resources, and that the error returned is that outcome's.
  - Helper methods named after the Go helpers (`ValidateHealthCheck`, `ValidateClientAuthentication`, ...) are proved the same way against their own functions.
- `Clean(b, env)` is a predicate stating, attribute by attribute, what a resource must satisfy to draw no issue. The lemma `Passes` proves that `ResourceIssues(b, env)` is empty and error-free exactly when `Clean(b, env)` holds.
- Some lemmas state the rule's particular promises: counts, ordering, where an error stops the check, which checks are skipped, and messages reported once.

The issue range is part of every issue. A missing attribute is reported at the resource's `DefRange`. A bad value is reported at its expression's range.

## Evaluation errors and other behaviours of note

- **Evaluation errors.** Almost every evaluation failure ends the whole `Check` with `return err`. The issues emitted before it stay emitted. A few evaluations ignore their error instead:
  - `rule_ibm_is_network_acl_rule.go` lines 207, 220 and 248 skip the one range check (ICMP type, ICMP code, one port) whose value could not be evaluated.
  - `rule_ibm_is_network_acl_rule.go` lines 263 and 266 discard the errors of evaluating `port_min` and `port_max`, then compare the two variables anyway. A variable that was not set holds Go's zero value, which `NetworkAclRule.IntOrZero` models.
  - `rule_ibm_is_lb_pool.go` lines 210-236 skip the range check of a health attribute that could not be evaluated.
- **Conditional requirements.** When the guard of a conditional requirement cannot be evaluated, its error is returned like any other.
- **List elements.** A bad element of a list attribute is reported at the range of the whole attribute, not of the element. The loops over `allowed_vlans` and `client_dns_server_ips` stop at the first bad element.
- **Format validators.** `isValidCIDR`, `isValidZone`, `isValidCronSpec`, `isValidTimeout` and `isValidCOSURL` accept every non-empty string.

## Model

| member | source | states |
|---|---|---|
| Tflint.ForEachPass | rules/rule_ibm_is_lb_pool.go:57-155 | The `for _, resource := range resources.Blocks` loop draws no issue and no error exactly when every resource's check does neither |
| Tflint.ForEachStopsAtError | rules/rule_ibm_is_lb_pool.go:57-155 | Once the check of some resource returns an error, the loop's issues and error are those up to that resource: no later resource is checked or reported |
| Tflint.ForEachFails | rules/rule_ibm_is_security_group_rule.go:119-137 | A nested block whose check returns an error makes the whole loop over the nested blocks return an error |
| Tflint.ForEachNoError | rules/rule_ibm_is_network_acl_rule.go:155-176 | When no iteration returns an error, the loop returns none and emits every block's issues, in block order |
| Tflint.ForEachIncludes | rules/rule_ibm_is_share_mount_target.go:112-146 | When the loop over nested blocks returns no error, every block's check ran without error and each of its issues is among the loop's issues |
| Tflint.ForEachAvoids | rules/rule_ibm_is_network_acl_rule.go:155-176 | A message that no single block's check emits is absent from the issues of the whole loop |
| Hcl.AnyOfTypeIff | rules/rule_ibm_is_cluster_network.go:104-133 | The `hasX` flag a nested-block loop sets is true exactly when some nested block has type `X` |
| Hcl.AnyOfTypeStep | rules/rule_ibm_is_cluster_network.go:104-133 | One more iteration sets the `hasX` flag exactly when it was set or the current block has type `X` |
| Hcl.FirstOfType | rules/rule_ibm_is_bare_metal_server.go:103-124 | The index where a loop that `break`s at the first block of a type stops: no earlier block has that type, and the block there has it unless no block does |
| Hcl.FirstOfTypeFound | rules/rule_ibm_is_bare_metal_server.go:103-124 | The breaking loop stops before the end exactly when a block of the type exists |
| Checks.Absent | rules/rule_ibm_is_lb_pool.go:60-68 | The names the required-attribute loop reports: exactly the listed names the block lacks |
| Checks.MissingNamesAbsent | rules/rule_ibm_is_lb_pool.go:60-68 | The required-attribute loop emits one issue per absent name, in list order, each naming that attribute at the resource's `DefRange` |
| Checks.MissingOncePerAbsent | rules/rule_ibm_is_lb_pool.go:60-68 | With distinct names, each absent required attribute is reported exactly once, at the `DefRange`, and a present or unlisted one never |
| Checks.MissingNone | rules/rule_ibm_is_lb_pool.go:60-68 | The required-attribute loop is silent exactly when every listed attribute is present |
| Checks.MissingLoopCount | rules/rule_ibm_is_dedicated_host_disk_management.go:77-108 | A nested-block loop that only tests required attributes never fails and emits one issue per absent attribute per block |
| Checks.CheckRequired | rules/rule_ibm_is_lb_pool.go:60-68 | Appends exactly the missing-attribute issues of `Missing`, one per absent name in list order |
| Checks.Require | rules/rule_ibm_is_backup_policy_plan.go:154-174 | A single required attribute with a message of its own: silent exactly when the attribute is present |
| Checks.CheckRequire | rules/rule_ibm_is_backup_policy_plan.go:154-174 | Appends exactly the issue of `Require`: one when the attribute is absent, none otherwise |
| Checks.OneOf | rules/rule_ibm_is_instance_volume_attachment.go:69-93 | The either/or test is silent exactly when one of the two flags is set; both set draws the "cannot specify both" issue and neither draws the "either ... or" issue, at the `DefRange` |
| Checks.CheckOneOf | rules/rule_ibm_is_instance_volume_attachment.go:69-93 | Appends exactly the issues of `OneOf` |
| Checks.Together | rules/rule_ibm_is_image.go:107-124 | Two attributes that go together: silent exactly when both or neither are present |
| Checks.CheckTogether | rules/rule_ibm_is_image.go:107-124 | Appends exactly the issue of `Together` |
| Checks.NotBoth | rules/rule_ibm_is_bare_metal_server_network_interface.go:66-82 | Two attributes that exclude each other: silent exactly when they are not both present |
| Checks.CheckNotBoth | rules/rule_ibm_is_bare_metal_server_network_interface.go:66-82 | Appends exactly the issue of `NotBoth` |
| Checks.NoBlocks | rules/rule_ibm_is_dedicated_host_disk_management.go:68-75 | The `len(resource.Body.Blocks) == 0` test: silent exactly when some nested block exists |
| Checks.CheckNoBlocks | rules/rule_ibm_is_dedicated_host_disk_management.go:68-75 | Appends exactly the issue of `NoBlocks` |
| Checks.Rejected | rules/rule_ibm_is_share_snapshot.go:89-105 | The elements a per-element test rejects: exactly the rejected values of the list, no more of them than the list holds |
| Checks.ElementIssues | rules/rule_ibm_is_share_snapshot.go:89-105 | Every issue of a per-element loop that does not name the element is the same issue, at the list's range |
| Checks.ElementIssuesCount | rules/rule_ibm_is_share_snapshot.go:89-105 | The per-element loop emits one issue per rejected element |
| Checks.ElementIssuesNone | rules/rule_ibm_is_share_snapshot.go:89-105 | The per-element loop is silent exactly when every element is accepted |
| Checks.CheckElements | rules/rule_ibm_is_share_snapshot.go:89-105 | Emits exactly the issues of `Elements` and returns the list's evaluation error, if any |
| Checks.ElementsPass | rules/rule_ibm_is_share_snapshot.go:89-105 | The per-element check draws nothing exactly when the list is absent, or evaluates and every element is accepted |
| Checks.NamedElementIssuesName | rules/rule_ibm_is_snapshot.go:100-116 | A per-element loop whose message names the element emits one issue per rejected element, the k-th naming the k-th rejected value |
| Checks.CheckNamedElements | rules/rule_ibm_is_snapshot.go:100-116 | Emits exactly the issues of `NamedElements` and returns the list's evaluation error, if any |
| Checks.NamedElementsPass | rules/rule_ibm_is_snapshot.go:100-116 | The naming per-element check draws nothing exactly when the list is absent, or evaluates and every element is accepted |
| Checks.CheckEnum | rules/rule_ibm_is_dedicated_host.go:64-85 | Emits exactly the issues of `Enum`: a present value outside the allowed set is reported at its range; an evaluation error is returned at once |
| Checks.EnumPass | rules/rule_ibm_is_dedicated_host.go:64-85 | The enum check draws nothing exactly when the attribute is absent, or evaluates to an allowed value |
| Checks.CheckEnumNeeding | rules/rule_ibm_is_volume.go:92-124 | Emits exactly the issues of `EnumNeeding`: the enum issue, then the companion issue when the value is the trigger and the companion attribute is absent |
| Checks.EnumNeedingOne | rules/rule_ibm_is_volume.go:92-124 | When the trigger value is itself allowed, an evaluated value draws at most one issue: the enum issue, else the companion issue |
| Checks.EnumNeedingPass | rules/rule_ibm_is_volume.go:92-124 | The check draws nothing exactly when the value is absent, or allowed and, when it is the trigger, the companion attribute is present |
| Checks.CheckValid | rules/rule_ibm_is_floating_ip.go:89-103 | Emits exactly the issues of `Valid`: a present string the validator rejects is reported at its range; an evaluation error is returned at once |
| Checks.ValidPass | rules/rule_ibm_is_floating_ip.go:89-103 | The check draws nothing exactly when the attribute is absent, or evaluates to a string the validator accepts |
| Checks.CheckIPv4 | rules/rule_ibm_is_instance_network_interface.go:92-106 | Emits exactly the issues of `IPv4`: a present address `isValidIPv4` rejects is reported at its range |
| Checks.IPv4Pass | rules/rule_ibm_is_instance_network_interface.go:92-106 | The address check draws nothing exactly when the attribute is absent, or evaluates to an address `isValidIPv4` accepts |
| Checks.CheckValidList | rules/rule_ibm_is_bare_metal_server_initialization.go:64-78 | Emits exactly the issues of `ValidList`: a present list the test rejects is reported once at its range |
| Checks.ValidListPass | rules/rule_ibm_is_bare_metal_server_initialization.go:64-78 | The list check draws nothing exactly when the attribute is absent, or evaluates to a list the test accepts |
| Checks.NameLengthAtMostOne | rules/rule_ibm_is_floating_ip.go:64-86 | The empty-name and too-long tests exclude each other: a name draws at most one issue |
| Checks.CheckNameLength | rules/rule_ibm_is_floating_ip.go:64-86 | Emits exactly the issues of `NameLength`: an empty name and a name over 63 bytes are each reported at the name's range |
| Checks.NameLengthPass | rules/rule_ibm_is_floating_ip.go:64-86 | The name check draws nothing exactly when the name is absent, or evaluates to 1 to 63 bytes |
| Checks.CheckIntRange | rules/rule_ibm_is_volume.go:127-141 | Emits exactly the issues of `IntRange`: a present number outside the inclusive bounds is reported at its range; an evaluation error is returned at once |
| Checks.IntRangePass | rules/rule_ibm_is_volume.go:127-141 | The range check draws nothing exactly when the attribute is absent, or evaluates within the bounds |
| Checks.CheckIntRangeIfEvaluates | rules/rule_ibm_is_lb_pool.go:208-219 | Emits exactly the issues of `IntRangeIfEvaluates`: a number outside the bounds is reported, and one that fails to evaluate is skipped without error |
| Checks.IntRangeIfEvaluatesIff | rules/rule_ibm_is_lb_pool.go:208-219 | The skipping range check is silent exactly when the attribute is absent, fails to evaluate or lies within the bounds, and reports at most once |
| Checks.CheckIntValid | rules/rule_ibm_is_cluster_network_subnet.go:63-78 | Emits exactly the issues of `IntValid`: a present number the test rejects is reported at its range |
| Checks.IntValidPass | rules/rule_ibm_is_cluster_network_subnet.go:63-78 | The number check draws nothing exactly when the attribute is absent, or evaluates to a number the test accepts |
| Checks.CheckIntAtLeast | rules/rule_ibm_is_instance_group.go:68-82 | Emits exactly the issues of `IntAtLeast`: a present number below the bound is reported at its range |
| Checks.IntAtLeastPass | rules/rule_ibm_is_instance_group.go:68-82 | The lower-bound check draws nothing exactly when the attribute is absent, or evaluates to at least the bound |
| Checks.CheckIntAmong | rules/rule_ibm_is_ike_policy.go:120-141 | Emits exactly the issues of `IntAmong`: a present number outside the allowed set is reported at its range |
| Checks.IntAmongPass | rules/rule_ibm_is_ike_policy.go:120-141 | The set check draws nothing exactly when the attribute is absent, or evaluates to an allowed number |
| Checks.CheckFloatPositive | rules/rule_ibm_is_instance_group_manager_policy.go:125-139 | Emits exactly the issues of `FloatPositive`: a present number not above zero is reported at its range |
| Checks.FloatPositivePass | rules/rule_ibm_is_instance_group_manager_policy.go:125-139 | The check draws nothing exactly when the attribute is absent, or evaluates to a positive number |
| Checks.CheckIntsInRange | rules/rule_ibm_is_bare_metal_server_network_attachment.go:123-140 | The loop over a number list stops (`break`) at the first element out of range: one issue at the list's range however many are out, none when all are in range |
| Checks.IntsInRangePass | rules/rule_ibm_is_bare_metal_server_network_attachment.go:123-140 | The list check draws nothing exactly when the list is absent, or evaluates and every element lies in the range |
| Checks.CheckIPv4s | rules/rule_ibm_is_vpn_server.go:185-202 | The loop over an address list stops at the first address `isValidIPv4` rejects: one issue at the list's range however many are rejected |
| Checks.IPv4sPass | rules/rule_ibm_is_vpn_server.go:185-202 | The address list check draws nothing exactly when the list is absent, or evaluates and every address is accepted |
| Checks.CheckFlag | rules/rule_ibm_is_instance_action.go:86-92 | A bool attribute is only evaluated: the returned error is that of its evaluation and nothing is emitted |
| Checks.FlagNeverReports | rules/rule_ibm_is_instance_action.go:86-92 | A bool attribute never draws an issue, and ends the check with an error exactly when it is present and fails to evaluate |
| Checks.FlagPass | rules/rule_ibm_is_instance_action.go:86-92 | The flag check passes exactly when the attribute is absent or evaluates |
| Membership.CheckMembershipCounts | rules/rule_ibm_is_instance_group_manager.go:101-131 | Emits exactly the issues of `MembershipCounts`: a negative minimum, then a maximum below the minimum (0 when the minimum is absent); either evaluation error is returned at once |
| Membership.MembershipPasses | rules/rule_ibm_is_instance_group_manager.go:101-131 | The membership check draws nothing exactly when each present count evaluates, the minimum is not negative and the maximum is not below the minimum |
| Membership.AbsentMinIsZero | rules/rule_ibm_is_instance_group_manager.go:101-131 | Without `min_membership_count` the maximum is compared with 0: only a negative maximum is reported |
| Membership.MinReportedBeforeMaxError | rules/rule_ibm_is_instance_group_manager.go:101-131 | A negative minimum stays reported when the maximum then fails to evaluate, and that evaluation error is returned |
| Projector.EachStringSliceExprs | ibm/runner.go:48-70 | The calls made to `proc` and the error returned are those of `Projection`: the evaluated values paired with the list's element expressions, or with the whole expression when it is not a static list |
| Projector.ProjectionPairs | ibm/runner.go:48-70 | On a successful evaluation with enough element expressions, `proc` receives every value once, in order, each with its own element expression, or the whole expression when it is not a static list |
| Projector.ProjectionEvalError | ibm/runner.go:48-56 | An evaluation error is returned before `proc` is called at all |
| Projector.ProjectionShortList | ibm/runner.go:58-68 | A static list with fewer element expressions than values makes `proc` run once per element expression and then fail on the index out of range |
| Validators.PlaceholdersRejectOnlyEmpty | rules/rule_ibm_is_cluster_network.go:162-166 | `isValidCIDR` and the other placeholder validators (`isValidZone`, `isValidCronSpec`, `isValidTimeout`, `isValidCOSURL`) reject the empty string and accept every other string |
| Validators.IPv4FollowsParser | rules/rule_ibm_is_instance_network_interface.go:123-128 | `isValidIPv4` rejects the empty string whatever the address parser says, and otherwise agrees with the parser |
| Validators.PowerOfTwoIff | rules/rule_ibm_is_cluster_network_subnet.go:102-104 | `n > 0 && n&(n-1) == 0` holds exactly when `n` is a power of two |
| Validators.SubnetSizeIff | rules/rule_ibm_is_cluster_network_subnet.go:71-77 | The subnet size test accepts exactly 2^3 to 2^13, that is 8, 16, ..., 8192 |
| Validators.TrimSpace | rules/rule_ibm_is_ssh_key.go:135 | `strings.TrimSpace` returns an empty string exactly when its input is all white space, and otherwise a string that neither starts nor ends with white space |
| Validators.TrimSpaceIsSlice | rules/rule_ibm_is_ssh_key.go:135 | `strings.TrimSpace` returns a slice of its input with only white space cut from each end |
| Validators.WordLength | rules/rule_ibm_is_ssh_key.go:136 | The leading word of a string holds no white space and ends at white space or at the end |
| Validators.Fields | rules/rule_ibm_is_ssh_key.go:136 | Every field `strings.Fields` returns is non-empty and free of white space |
| Validators.FieldsOfSpaced | rules/rule_ibm_is_ssh_key.go:136 | `strings.Fields` returns exactly the words, in order, of any text made of non-empty space-free words separated by white-space runs of any length, with any white space before and after |
| Validators.FieldsSkipLeading | rules/rule_ibm_is_ssh_key.go:136 | White space before the text does not change its fields |
| Validators.FieldsSkipTrailing | rules/rule_ibm_is_ssh_key.go:136 | White space after the text does not change its fields |
| Validators.FieldsOfTrimSpace | rules/rule_ibm_is_ssh_key.go:135-136 | `strings.TrimSpace` before `strings.Fields` changes nothing |
| Validators.FieldsOfJoin | rules/rule_ibm_is_ssh_key.go:136 | Splitting a single-space join of non-empty, space-free words returns those words |
| Validators.PublicKeyIff | rules/rule_ibm_is_ssh_key.go:132-139 | A key is accepted exactly when it has at least two fields and the first begins with `ssh-rsa` or `ssh-ed25519`; an all-white-space key is rejected |
| Validators.PublicKeyIgnoresPadding | rules/rule_ibm_is_ssh_key.go:132-139 | White space around a key does not change whether it is accepted |
| Validators.PublicKeyOfJoin | rules/rule_ibm_is_ssh_key.go:132-139 | A key written as `type body [comment]` with single spaces is accepted exactly when its type begins with `ssh-rsa` or `ssh-ed25519` |
| BackupPolicy.CheckResource | rules/rule_ibm_is_backup_policy.go:45-70 | The checks on one resource run in source order: the issues emitted and the error returned are those of `ResourceIssues`, an evaluation error ending the resource's check |
| BackupPolicy.Check | rules/rule_ibm_is_backup_policy.go:33-73 | Over the `ibm_is_backup_policy` resources, in order, emits exactly the issues `ResourceIssues` gives each and returns the first evaluation error, checking no resource after it; a failed content fetch is returned before any issue |
| BackupPolicy.Passes | rules/rule_ibm_is_backup_policy.go:45-70 | A resource draws no issue and no error exactly when every attribute of [name] is present; `match_resource_type` evaluates to a string that is non-empty |
| BackupPolicyPlan.CheckZones | rules/rule_ibm_is_backup_policy_plan.go:116-176 | Emits exactly the issues of `ZonesIssues`; The `zones` of a `clone_policy` block: required, and once evaluated an empty list is reported, then every bad zone, all at the list's range. An evaluation error is returned at once. |
| BackupPolicyPlan.ZonesPasses | rules/rule_ibm_is_backup_policy_plan.go:116-176 | `ZonesIssues` draws nothing exactly when `zones` is present; `zones` evaluates; the list is not empty; every element passes `IsValidZone` |
| BackupPolicyPlan.CheckClonePolicy | rules/rule_ibm_is_backup_policy_plan.go:117-175 | For one nested block, emits exactly the issues of `ClonePolicyIssues`: One nested block: a `clone_policy` block needs good `zones` and a positive `max_snapshots`. An evaluation error is returned at once. |
| BackupPolicyPlan.CheckClonePolicies | rules/rule_ibm_is_backup_policy_plan.go:116-176 | Runs the nested-block check over every nested block in order, tracking whether a `clone_policy` block occurred; The `clone_policy` loop. An evaluation error is returned at once. |
| BackupPolicyPlan.ClonePolicyIssuesPasses | rules/rule_ibm_is_backup_policy_plan.go:117-175 | A nested `clone_policy` block draws nothing exactly when `ZonesClean` holds; `max_snapshots` evaluates to at least 1; `max_snapshots` is present |
| BackupPolicyPlan.ClonePoliciesIssuesPasses | rules/rule_ibm_is_backup_policy_plan.go:116-176 | The loop over the nested blocks draws nothing exactly when every `clone_policy` block is clean |
| BackupPolicyPlan.CheckResource | rules/rule_ibm_is_backup_policy_plan.go:60-177 | The checks on one resource run in source order: the issues emitted and the error returned are those of `ResourceIssues`, an evaluation error ending the resource's check |
| BackupPolicyPlan.Check | rules/rule_ibm_is_backup_policy_plan.go:36-180 | Over the `ibm_is_backup_policy_plan` resources, in order, emits exactly the issues `ResourceIssues` gives each and returns the first evaluation error, checking no resource after it; a failed content fetch is returned before any issue |
| BackupPolicyPlan.Passes | rules/rule_ibm_is_backup_policy_plan.go:60-177 | A resource draws no issue and no error exactly when every attribute of [backup_policy_id, cron_spec, name] is present; `cron_spec` evaluates to a string that passes `isValidCronSpec`; `name` evaluates to 1 to 63 bytes; `ClonePoliciesIssuesClean` holds |
| BackupPolicyPlan.EmptyZonesReportedOnce | rules/rule_ibm_is_backup_policy_plan.go:119-145 | An empty `zones` list draws exactly the emptiness issue: the zone loop has nothing to test. |
| BackupPolicyPlan.BadZonesCounted | rules/rule_ibm_is_backup_policy_plan.go:60-177 | One issue per bad zone of a non-empty list. |
| BareMetalServer.CheckPrimary | rules/rule_ibm_is_bare_metal_server.go:103-124 | Emits exactly the issues of `PrimaryIssues`; The `primary_network_interface` loop: it stops (`break`) at the first such block, which must have `subnet`; without one the resource is reported. |
| BareMetalServer.PrimaryPasses | rules/rule_ibm_is_bare_metal_server.go:103-124 | `PrimaryIssues` draws nothing exactly when `var k := FirstOfType(b.body.blocks, "primary_network_interface"); k < \|b.body.blocks\|`; `Has(b.body.blocks[k], "subnet")` |
| BareMetalServer.CheckResource | rules/rule_ibm_is_bare_metal_server.go:65-125 | The checks on one resource run in source order: the issues emitted and the error returned are those of `ResourceIssues`, an evaluation error ending the resource's check |
| BareMetalServer.Check | rules/rule_ibm_is_bare_metal_server.go:37-128 | Over the `ibm_is_bare_metal_server` resources, in order, emits exactly the issues `ResourceIssues` gives each and returns the first evaluation error, checking no resource after it; a failed content fetch is returned before any issue |
| BareMetalServer.Passes | rules/rule_ibm_is_bare_metal_server.go:65-125 | A resource draws no issue and no error exactly when every attribute of [name, profile, image, zone, vpc, keys] is present; `profile` evaluates to one of {bx2-metal-192x768, cx2-metal-96x384}; `PrimaryClean` holds |
| BareMetalServer.OnlyFirstInterface | rules/rule_ibm_is_bare_metal_server.go:103-124 | Only the first `primary_network_interface` block is looked at: the interface check is silent exactly when such a block exists and the first one has `subnet`, whatever the later ones lack. |
| BareMetalServer.NoInterfaceReported | rules/rule_ibm_is_bare_metal_server.go:103-124 | A resource without any `primary_network_interface` block draws exactly that one interface issue. |
| BareMetalServerAction.CheckAction | rules/rule_ibm_is_bare_metal_server_action.go:63-113 | Emits exactly the issues of `ActionIssues`; The `action` check: a value outside the set is reported, and the value `stop` further asks for a `stop_type` of `hard` or `soft`; a missing `stop_type` is reported at the `action` expression. An evaluation error is returned at once. |
| BareMetalServerAction.ActionPasses | rules/rule_ibm_is_bare_metal_server_action.go:63-113 | `ActionIssues` draws nothing exactly when (whenever `action` is present: `action` evaluates; its value is one of {start, stop, reboot}; (whenever `action` is `stop`: `stop_type` is present; `stop_type` evaluates to one of {hard, soft})) |
| BareMetalServerAction.CheckResource | rules/rule_ibm_is_bare_metal_server_action.go:49-114 | The checks on one resource run in source order: the issues emitted and the error returned are those of `ResourceIssues`, an evaluation error ending the resource's check |
| BareMetalServerAction.Check | rules/rule_ibm_is_bare_metal_server_action.go:36-117 | Over the `ibm_is_bare_metal_server_action` resources, in order, emits exactly the issues `ResourceIssues` gives each and returns the first evaluation error, checking no resource after it; a failed content fetch is returned before any issue |
| BareMetalServerAction.Passes | rules/rule_ibm_is_bare_metal_server_action.go:49-114 | A resource draws no issue and no error exactly when every attribute of [bare_metal_server, action] is present; `ActionClean` holds |
| BareMetalServerAction.StopNeedsStopType | rules/rule_ibm_is_bare_metal_server_action.go:86-105 | `action = "stop"` without `stop_type` is reported once, at the action, and ends without error. |
| BareMetalServerAction.StopTypeOnlyForStop | rules/rule_ibm_is_bare_metal_server_action.go:86-105 | For any other action `stop_type` is never looked at. |
| BareMetalServerDisk.CheckResource | rules/rule_ibm_is_bare_metal_server_disk.go:50-81 | The checks on one resource run in source order: the issues emitted and the error returned are those of `ResourceIssues`, an evaluation error ending the resource's check |
| BareMetalServerDisk.Check | rules/rule_ibm_is_bare_metal_server_disk.go:37-84 | Over the `ibm_is_bare_metal_server_disk` resources, in order, emits exactly the issues `ResourceIssues` gives each and returns the first evaluation error, checking no resource after it; a failed content fetch is returned before any issue |
| BareMetalServerDisk.Passes | rules/rule_ibm_is_bare_metal_server_disk.go:50-81 | A resource draws no issue and no error exactly when every attribute of [bare_metal_server, disk] is present; `name` evaluates to a string that is non-empty |
| BareMetalServerInitialization.CheckResource | rules/rule_ibm_is_bare_metal_server_initialization.go:50-96 | The checks on one resource run in source order: the issues emitted and the error returned are those of `ResourceIssues`, an evaluation error ending the resource's check |
| BareMetalServerInitialization.Check | rules/rule_ibm_is_bare_metal_server_initialization.go:36-99 | Over the `ibm_is_bare_metal_server_initialization` resources, in order, emits exactly the issues `ResourceIssues` gives each and returns the first evaluation error, checking no resource after it; a failed content fetch is returned before any issue |
| BareMetalServerInitialization.Passes | rules/rule_ibm_is_bare_metal_server_initialization.go:50-96 | A resource draws no issue and no error exactly when every attribute of [bare_metal_server, image, keys] is present; `keys` evaluates to a list that satisfies `NonEmptyList`; `user_data` evaluates to a string that satisfies `WithinUserDataLimit` |
| BareMetalServerNetworkAttachment.CheckInterfaceType | rules/rule_ibm_is_bare_metal_server_network_attachment.go:65-103 | Emits exactly the issues of `InterfaceTypeIssues`; The `interface_type` check: a value outside the set is reported, `vlan` asks for a `vlan` attribute and `pci` for `allowed_vlans`, both reported at the `interface_type` expression. An evaluation error is returned at once. |
| BareMetalServerNetworkAttachment.InterfaceTypePasses | rules/rule_ibm_is_bare_metal_server_network_attachment.go:65-103 | `InterfaceTypeIssues` draws nothing exactly when (whenever `interface_type` is present: `interface_type` evaluates; its value is one of {vlan, pci}; (whenever `interface_type` is `vlan`: `vlan` is present); (whenever `interface_type` is `pci`: `allowed_vlans` is present)) |
| BareMetalServerNetworkAttachment.CheckResource | rules/rule_ibm_is_bare_metal_server_network_attachment.go:51-141 | The checks on one resource run in source order: the issues emitted and the error returned are those of `ResourceIssues`, an evaluation error ending the resource's check |
| BareMetalServerNetworkAttachment.Check | rules/rule_ibm_is_bare_metal_server_network_attachment.go:36-144 | Over the `ibm_is_bare_metal_server_network_attachment` resources, in order, emits exactly the issues `ResourceIssues` gives each and returns the first evaluation error, checking no resource after it; a failed content fetch is returned before any issue |
| BareMetalServerNetworkAttachment.Passes | rules/rule_ibm_is_bare_metal_server_network_attachment.go:51-141 | A resource draws no issue and no error exactly when every attribute of [bare_metal_server] is present; `InterfaceTypeClean` holds; `vlan` evaluates into 1..4094; every element of `allowed_vlans` lies in 1..4094 |
| BareMetalServerNetworkAttachment.InterfaceTypeAtMostOne | rules/rule_ibm_is_bare_metal_server_network_attachment.go:65-103 | An evaluated `interface_type` draws at most one issue: the value test for an unknown type, else the companion attribute its type asks for. |
| BareMetalServerNetworkAttachment.BadVlansReportedOnce | rules/rule_ibm_is_bare_metal_server_network_attachment.go:51-141 | However many VLANs are out of range, the loop stops at the first and reports once. |
| BareMetalServerNetworkInterface.CheckResource | rules/rule_ibm_is_bare_metal_server_network_interface.go:53-130 | The checks on one resource run in source order: the issues emitted and the error returned are those of `ResourceIssues`, an evaluation error ending the resource's check |
| BareMetalServerNetworkInterface.Check | rules/rule_ibm_is_bare_metal_server_network_interface.go:36-133 | Over the `ibm_is_bare_metal_server_network_interface` resources, in order, emits exactly the issues `ResourceIssues` gives each and returns the first evaluation error, checking no resource after it; a failed content fetch is returned before any issue |
| BareMetalServerNetworkInterface.Passes | rules/rule_ibm_is_bare_metal_server_network_interface.go:53-130 | A resource draws no issue and no error exactly when every attribute of [bare_metal_server, subnet, name] is present; `allowed_vlans` and `vlan` are not both present; `vlan` evaluates into 1..4094; every element of `allowed_vlans` lies in 1..4094; (whenever `allow_ip_spoofing` is present: `allow_ip_spoofing` evaluates) |
| BareMetalServerNetworkInterfaceAllowFloat.CheckResource | rules/rule_ibm_is_bare_metal_server_network_interface_allow_float.go:51-97 | The checks on one resource run in source order: the issues emitted and the error returned are those of `ResourceIssues`, an evaluation error ending the resource's check |
| BareMetalServerNetworkInterfaceAllowFloat.Check | rules/rule_ibm_is_bare_metal_server_network_interface_allow_float.go:36-100 | Over the `ibm_is_bare_metal_server_network_interface_allow_float` resources, in order, emits exactly the issues `ResourceIssues` gives each and returns the first evaluation error, checking no resource after it; a failed content fetch is returned before any issue |
| BareMetalServerNetworkInterfaceAllowFloat.Passes | rules/rule_ibm_is_bare_metal_server_network_interface_allow_float.go:51-97 | A resource draws no issue and no error exactly when every attribute of [bare_metal_server, subnet, name, vlan] is present; `vlan` evaluates into 1..4094; `name` evaluates to a string that is non-empty |
| BareMetalServerNetworkInterfaceFloatingIp.CheckResource | rules/rule_ibm_is_bare_metal_server_network_interface_floating_ip.go:49-66 | The checks on one resource run in source order: the issues emitted and the error returned are those of `ResourceIssues`, an evaluation error ending the resource's check |
| BareMetalServerNetworkInterfaceFloatingIp.Check | rules/rule_ibm_is_bare_metal_server_network_interface_floating_ip.go:36-69 | Over the `ibm_is_bare_metal_server_network_interface_floating_ip` resources, in order, emits exactly the issues `ResourceIssues` gives each and returns the first evaluation error, checking no resource after it; a failed content fetch is returned before any issue |
| BareMetalServerNetworkInterfaceFloatingIp.Passes | rules/rule_ibm_is_bare_metal_server_network_interface_floating_ip.go:49-66 | A resource draws no issue and no error exactly when every attribute of [bare_metal_server, network_interface, floating_ip] is present |
| ClusterNetwork.CheckPrefix | rules/rule_ibm_is_cluster_network.go:106-124 | For one nested block, emits exactly the issues of `PrefixIssues`: One nested block: the `cidr` of a `subnet_prefixes` block must be a CIDR. An evaluation error is returned at once. |
| ClusterNetwork.CheckPrefixes | rules/rule_ibm_is_cluster_network.go:104-133 | Runs the nested-block check over every nested block in order, tracking whether a `subnet_prefixes` block occurred; The `subnet_prefixes` loop, then the test on whether such a block exists. An evaluation error is returned at once. |
| ClusterNetwork.PrefixIssuesPasses | rules/rule_ibm_is_cluster_network.go:106-124 | A nested `subnet_prefixes` block draws nothing exactly when `cidr` evaluates to a string that passes `isValidCIDR` |
| ClusterNetwork.PrefixesIssuesPasses | rules/rule_ibm_is_cluster_network.go:104-133 | The loop over the nested blocks draws nothing exactly when every `subnet_prefixes` block is clean and at least one exists |
| ClusterNetwork.NoSubnetPrefixesReported | rules/rule_ibm_is_cluster_network.go:104-133 | Without any `subnet_prefixes` block, the `subnet_prefixes` loop draws exactly one issue, "subnet_prefixes block must be specified", at `b`'s range. |
| ClusterNetwork.CheckVpc | rules/rule_ibm_is_cluster_network.go:138-147 | For one nested block, emits exactly the issues of `VpcIssues`: One nested block: a `vpc` block needs `id`. |
| ClusterNetwork.CheckVpcs | rules/rule_ibm_is_cluster_network.go:136-156 | Runs the nested-block check over every nested block in order, tracking whether a `vpc` block occurred; The `vpc` loop, then the test on whether such a block exists. |
| ClusterNetwork.VpcIssuesPasses | rules/rule_ibm_is_cluster_network.go:138-147 | A nested `vpc` block draws nothing exactly when `id` is present |
| ClusterNetwork.VpcsIssuesPasses | rules/rule_ibm_is_cluster_network.go:136-156 | The loop over the nested blocks draws nothing exactly when every `vpc` block is clean and at least one exists |
| ClusterNetwork.NoVpcReported | rules/rule_ibm_is_cluster_network.go:136-156 | Without any `vpc` block, the `vpc` loop draws exactly one issue, "vpc block must be specified", at `b`'s range. |
| ClusterNetwork.CheckResource | rules/rule_ibm_is_cluster_network.go:68-157 | The checks on one resource run in source order: the issues emitted and the error returned are those of `ResourceIssues`, an evaluation error ending the resource's check |
| ClusterNetwork.Check | rules/rule_ibm_is_cluster_network.go:36-160 | Over the `ibm_is_cluster_network` resources, in order, emits exactly the issues `ResourceIssues` gives each and returns the first evaluation error, checking no resource after it; a failed content fetch is returned before any issue |
| ClusterNetwork.Passes | rules/rule_ibm_is_cluster_network.go:68-157 | A resource draws no issue and no error exactly when every attribute of [name, profile, zone] is present; `profile` evaluates to one of {h100}; `PrefixesIssuesClean` holds; `VpcsIssuesClean` holds |
| ClusterNetworkInterface.CheckPrimaryIp | rules/rule_ibm_is_cluster_network_interface.go:82-91 | For one nested block, emits exactly the issues of `PrimaryIpIssues`: One nested block: a `primary_ip` block needs `id`. |
| ClusterNetworkInterface.CheckPrimaryIps | rules/rule_ibm_is_cluster_network_interface.go:80-100 | Runs the nested-block check over every nested block in order, tracking whether a `primary_ip` block occurred; The `primary_ip` loop, then the test on whether such a block exists. |
| ClusterNetworkInterface.PrimaryIpIssuesPasses | rules/rule_ibm_is_cluster_network_interface.go:82-91 | A nested `primary_ip` block draws nothing exactly when `id` is present |
| ClusterNetworkInterface.PrimaryIpsIssuesPasses | rules/rule_ibm_is_cluster_network_interface.go:80-100 | The loop over the nested blocks draws nothing exactly when every `primary_ip` block is clean and at least one exists |
| ClusterNetworkInterface.NoPrimaryIpReported | rules/rule_ibm_is_cluster_network_interface.go:80-100 | Without any `primary_ip` block, the `primary_ip` loop draws exactly one issue, "primary_ip block must be specified", at `b`'s range. |
| ClusterNetworkInterface.CheckSubnet | rules/rule_ibm_is_cluster_network_interface.go:105-114 | For one nested block, emits exactly the issues of `SubnetIssues`: One nested block: a `subnet` block needs `id`. |
| ClusterNetworkInterface.CheckSubnets | rules/rule_ibm_is_cluster_network_interface.go:103-123 | Runs the nested-block check over every nested block in order, tracking whether a `subnet` block occurred; The `subnet` loop, then the test on whether such a block exists. |
| ClusterNetworkInterface.SubnetIssuesPasses | rules/rule_ibm_is_cluster_network_interface.go:105-114 | A nested `subnet` block draws nothing exactly when `id` is present |
| ClusterNetworkInterface.SubnetsIssuesPasses | rules/rule_ibm_is_cluster_network_interface.go:103-123 | The loop over the nested blocks draws nothing exactly when every `subnet` block is clean and at least one exists |
| ClusterNetworkInterface.NoSubnetReported | rules/rule_ibm_is_cluster_network_interface.go:103-123 | Without any `subnet` block, the `subnet` loop draws exactly one issue, "subnet block must be specified", at `b`'s range. |
| ClusterNetworkInterface.CheckResource | rules/rule_ibm_is_cluster_network_interface.go:66-141 | The checks on one resource run in source order: the issues emitted and the error returned are those of `ResourceIssues`, an evaluation error ending the resource's check |
| ClusterNetworkInterface.Check | rules/rule_ibm_is_cluster_network_interface.go:36-144 | Over the `ibm_is_cluster_network_interface` resources, in order, emits exactly the issues `ResourceIssues` gives each and returns the first evaluation error, checking no resource after it; a failed content fetch is returned before any issue |
| ClusterNetworkInterface.Passes | rules/rule_ibm_is_cluster_network_interface.go:66-141 | A resource draws no issue and no error exactly when every attribute of [cluster_network_id, name] is present; `PrimaryIpsIssuesClean` holds; `SubnetsIssuesClean` holds; `name` evaluates to a string that is non-empty |
| ClusterNetworkSubnet.CheckResource | rules/rule_ibm_is_cluster_network_subnet.go:49-96 | The checks on one resource run in source order: the issues emitted and the error returned are those of `ResourceIssues`, an evaluation error ending the resource's check |
| ClusterNetworkSubnet.Check | rules/rule_ibm_is_cluster_network_subnet.go:36-99 | Over the `ibm_is_cluster_network_subnet` resources, in order, emits exactly the issues `ResourceIssues` gives each and returns the first evaluation error, checking no resource after it; a failed content fetch is returned before any issue |
| ClusterNetworkSubnet.Passes | rules/rule_ibm_is_cluster_network_subnet.go:49-96 | A resource draws no issue and no error exactly when every attribute of [cluster_network_id, name, total_ipv4_address_count] is present; `total_ipv4_address_count` evaluates to an integer that is a power of two from 8 to 8192; `name` evaluates to a string that is non-empty |
| ClusterNetworkSubnetReservedIp.CheckResource | rules/rule_ibm_is_cluster_network_subnet_reserved_ip.go:50-109 | The checks on one resource run in source order: the issues emitted and the error returned are those of `ResourceIssues`, an evaluation error ending the resource's check |
| ClusterNetworkSubnetReservedIp.Check | rules/rule_ibm_is_cluster_network_subnet_reserved_ip.go:36-112 | Over the `ibm_is_cluster_network_subnet_reserved_ip` resources, in order, emits exactly the issues `ResourceIssues` gives each and returns the first evaluation error, checking no resource after it; a failed content fetch is returned before any issue |
| ClusterNetworkSubnetReservedIp.Passes | rules/rule_ibm_is_cluster_network_subnet_reserved_ip.go:50-109 | A resource draws no issue and no error exactly when every attribute of [address, cluster_network_id, cluster_network_subnet_id, name] is present; `address` evaluates to an address `isValidIPv4` accepts; `name` evaluates to 1 to 63 bytes |
| DedicatedHost.CheckResource | rules/rule_ibm_is_dedicated_host.go:50-112 | The checks on one resource run in source order: the issues emitted and the error returned are those of `ResourceIssues`, an evaluation error ending the resource's check |
| DedicatedHost.Check | rules/rule_ibm_is_dedicated_host.go:36-115 | Over the `ibm_is_dedicated_host` resources, in order, emits exactly the issues `ResourceIssues` gives each and returns the first evaluation error, checking no resource after it; a failed content fetch is returned before any issue |
| DedicatedHost.Passes | rules/rule_ibm_is_dedicated_host.go:50-112 | A resource draws no issue and no error exactly when every attribute of [profile, name, host_group] is present; `profile` evaluates to one of {bx2d-host-152x608, mx2d-host-304x1216, cx2d-host-76x304}; `name` evaluates to 1 to 63 bytes |
| DedicatedHostDiskManagement.CheckDisk | rules/rule_ibm_is_dedicated_host_disk_management.go:78-107 | For one nested block, emits exactly the issues of `DiskIssues`: One nested block: a `disks` block needs `name` and `id`, and a non-empty name. An evaluation error is returned at once. |
| DedicatedHostDiskManagement.CheckDisks | rules/rule_ibm_is_dedicated_host_disk_management.go:77-108 | Runs the nested-block check over every nested block in order, tracking whether a `disks` block occurred; The `disks` loop. An evaluation error is returned at once. |
| DedicatedHostDiskManagement.DiskIssuesPasses | rules/rule_ibm_is_dedicated_host_disk_management.go:78-107 | A nested `disks` block draws nothing exactly when every attribute of [name, id] is present; `name` evaluates to a string that is non-empty |
| DedicatedHostDiskManagement.DisksIssuesPasses | rules/rule_ibm_is_dedicated_host_disk_management.go:77-108 | The loop over the nested blocks draws nothing exactly when every `disks` block is clean |
| DedicatedHostDiskManagement.CheckResource | rules/rule_ibm_is_dedicated_host_disk_management.go:58-109 | The checks on one resource run in source order: the issues emitted and the error returned are those of `ResourceIssues`, an evaluation error ending the resource's check |
| DedicatedHostDiskManagement.Check | rules/rule_ibm_is_dedicated_host_disk_management.go:36-112 | Over the `ibm_is_dedicated_host_disk_management` resources, in order, emits exactly the issues `ResourceIssues` gives each and returns the first evaluation error, checking no resource after it; a failed content fetch is returned before any issue |
| DedicatedHostDiskManagement.Passes | rules/rule_ibm_is_dedicated_host_disk_management.go:58-109 | A resource draws no issue and no error exactly when every attribute of [dedicated_host] is present; the list is not empty; `DisksIssuesClean` holds |
| DedicatedHostGroup.CheckResource | rules/rule_ibm_is_dedicated_host_group.go:51-143 | The checks on one resource run in source order: the issues emitted and the error returned are those of `ResourceIssues`, an evaluation error ending the resource's check |
| DedicatedHostGroup.Check | rules/rule_ibm_is_dedicated_host_group.go:36-146 | Over the `ibm_is_dedicated_host_group` resources, in order, emits exactly the issues `ResourceIssues` gives each and returns the first evaluation error, checking no resource after it; a failed content fetch is returned before any issue |
| DedicatedHostGroup.Passes | rules/rule_ibm_is_dedicated_host_group.go:51-143 | A resource draws no issue and no error exactly when every attribute of [family, class, zone, name] is present; `family` evaluates to one of {memory, balanced, compute}; `class` evaluates to one of {bx2d, mx2d, cx2d}; `name` evaluates to a string that is non-empty; `zone` evaluates to a string that passes `isValidZone` |
| FloatingIp.CheckResource | rules/rule_ibm_is_floating_ip.go:50-104 | The checks on one resource run in source order: the issues emitted and the error returned are those of `ResourceIssues`, an evaluation error ending the resource's check |
| FloatingIp.Check | rules/rule_ibm_is_floating_ip.go:36-107 | Over the `ibm_is_floating_ip` resources, in order, emits exactly the issues `ResourceIssues` gives each and returns the first evaluation error, checking no resource after it; a failed content fetch is returned before any issue |
| FloatingIp.Passes | rules/rule_ibm_is_floating_ip.go:50-104 | A resource draws no issue and no error exactly when every attribute of [name, zone] is present; `name` evaluates to 1 to 63 bytes; `zone` evaluates to a string that passes `isValidZone` |
| FlowLog.CheckResource | rules/rule_ibm_is_flow_log.go:51-122 | The checks on one resource run in source order: the issues emitted and the error returned are those of `ResourceIssues`, an evaluation error ending the resource's check |
| FlowLog.Check | rules/rule_ibm_is_flow_log.go:36-125 | Over the `ibm_is_flow_log` resources, in order, emits exactly the issues `ResourceIssues` gives each and returns the first evaluation error, checking no resource after it; a failed content fetch is returned before any issue |
| FlowLog.Passes | rules/rule_ibm_is_flow_log.go:51-122 | A resource draws no issue and no error exactly when every attribute of [name, target, storage_bucket] is present; `name` evaluates to 1 to 63 bytes; `target` evaluates to a string that is non-empty; `storage_bucket` evaluates to a string that is non-empty |
| IkePolicy.CheckResource | rules/rule_ibm_is_ike_policy.go:53-176 | The checks on one resource run in source order: the issues emitted and the error returned are those of `ResourceIssues`, an evaluation error ending the resource's check |
| IkePolicy.Check | rules/rule_ibm_is_ike_policy.go:36-179 | Over the `ibm_is_ike_policy` resources, in order, emits exactly the issues `ResourceIssues` gives each and returns the first evaluation error, checking no resource after it; a failed content fetch is returned before any issue |
| IkePolicy.Passes | rules/rule_ibm_is_ike_policy.go:53-176 | A resource draws no issue and no error exactly when every attribute of [name, authentication_algorithm, encryption_algorithm, dh_group, ike_version] is present; `authentication_algorithm` evaluates to one of {md5, sha1, sha256}; `encryption_algorithm` evaluates to one of {triple_des, aes128, aes192, aes256}; `dh_group` evaluates to one of {2, 5, 14, 19}; `ike_version` evaluates to one of {1, 2}; `key_lifetime` evaluates into 300..86400 |
| Image.CheckResource | rules/rule_ibm_is_image.go:52-125 | The checks on one resource run in source order: the issues emitted and the error returned are those of `ResourceIssues`, an evaluation error ending the resource's check |
| Image.Check | rules/rule_ibm_is_image.go:36-128 | Over the `ibm_is_image` resources, in order, emits exactly the issues `ResourceIssues` gives each and returns the first evaluation error, checking no resource after it; a failed content fetch is returned before any issue |
| Image.Passes | rules/rule_ibm_is_image.go:52-125 | A resource draws no issue and no error exactly when every attribute of [name, href, operating_system] is present; `name` evaluates to 1 to 63 bytes; `href` evaluates to a string that passes `isValidCOSURL`; `encrypted_data_key` and `encryption_key` are both present or both absent |
| ImageDeprecate.CheckResource | rules/rule_ibm_is_image_deprecate.go:45-57 | The checks on one resource run in source order: the issues emitted and the error returned are those of `ResourceIssues`, an evaluation error ending the resource's check |
| ImageDeprecate.Check | rules/rule_ibm_is_image_deprecate.go:34-60 | Over the `ibm_is_image_deprecate` resources, in order, emits exactly the issues `ResourceIssues` gives each and returns the first evaluation error, checking no resource after it; a failed content fetch is returned before any issue |
| ImageDeprecate.Passes | rules/rule_ibm_is_image_deprecate.go:45-57 | A resource draws no issue and no error exactly when every attribute of [image] is present |
| ImageExportJob.CheckBucket | rules/rule_ibm_is_image_export_job.go:124-133 | For one nested block, emits exactly the issues of `BucketIssues`: One nested block: a `storage_bucket` block needs `name`. |
| ImageExportJob.CheckBuckets | rules/rule_ibm_is_image_export_job.go:122-142 | Runs the nested-block check over every nested block in order, tracking whether a `storage_bucket` block occurred; The `storage_bucket` loop, then the test on whether such a block exists. |
| ImageExportJob.BucketIssuesPasses | rules/rule_ibm_is_image_export_job.go:124-133 | A nested `storage_bucket` block draws nothing exactly when `name` is present |
| ImageExportJob.BucketsIssuesPasses | rules/rule_ibm_is_image_export_job.go:122-142 | The loop over the nested blocks draws nothing exactly when every `storage_bucket` block is clean and at least one exists |
| ImageExportJob.NoStorageBucketReported | rules/rule_ibm_is_image_export_job.go:122-142 | Without any `storage_bucket` block, the `storage_bucket` loop draws exactly one issue, "storage_bucket block must be specified", at `b`'s range. |
| ImageExportJob.CheckResource | rules/rule_ibm_is_image_export_job.go:59-143 | The checks on one resource run in source order: the issues emitted and the error returned are those of `ResourceIssues`, an evaluation error ending the resource's check |
| ImageExportJob.Check | rules/rule_ibm_is_image_export_job.go:36-146 | Over the `ibm_is_image_export_job` resources, in order, emits exactly the issues `ResourceIssues` gives each and returns the first evaluation error, checking no resource after it; a failed content fetch is returned before any issue |
| ImageExportJob.Passes | rules/rule_ibm_is_image_export_job.go:59-143 | A resource draws no issue and no error exactly when every attribute of [image, name] is present; `name` evaluates to 1 to 63 bytes; `format` evaluates to one of {qcow2, raw, vhd, vmdk}; `BucketsIssuesClean` holds |
| ImageObsolete.CheckResource | rules/rule_ibm_is_image_obsolete.go:45-60 | The checks on one resource run in source order: the issues emitted and the error returned are those of `ResourceIssues`, an evaluation error ending the resource's check |
| ImageObsolete.Check | rules/rule_ibm_is_image_obsolete.go:34-63 | Over the `ibm_is_image_obsolete` resources, in order, emits exactly the issues `ResourceIssues` gives each and returns the first evaluation error, checking no resource after it; a failed content fetch is returned before any issue |
| ImageObsolete.Passes | rules/rule_ibm_is_image_obsolete.go:45-60 | A resource draws no issue and no error exactly when every attribute of [image] is present |
| Instance.CheckRequiredAttributes | rules/rule_ibm_is_instance.go:87-100 | Emits exactly the issues of `RequiredIssues`: `checkRequiredAttributes`: never returns an error. |
| Instance.ValidateProfile | rules/rule_ibm_is_instance.go:102-121 | Emits exactly the issues of `ProfileIssues`: `validateProfile`, called when `profile` is present. An evaluation error is returned at once. |
| Instance.ValidateImage | rules/rule_ibm_is_instance.go:123-142 | Emits exactly the issues of `ImageIssues`: `validateImage`, called when `image` is present. An evaluation error is returned at once. |
| Instance.CheckResource | rules/rule_ibm_is_instance.go:63-82 | The checks on one resource run in source order: the issues emitted and the error returned are those of `ResourceIssues`, an evaluation error ending the resource's check |
| Instance.InstanceRule.constructor | rules/rule_ibm_is_instance.go:19-32 | The rule object as its constructor fills it: the resource type and the attribute schema, and `Name` reports the resource type |
| Instance.InstanceRule.Check | rules/rule_ibm_is_instance.go:55-85 | Over the `ibm_is_instance` resources, in order, emits exactly the issues `ResourceIssues` gives each and returns the first evaluation error, checking no resource after it; a failed content fetch is returned before any issue |
| Instance.RequiredIssuesPasses | rules/rule_ibm_is_instance.go:63-82 | `RequiredIssues` draws nothing exactly when every attribute of [name, profile, image, vpc, zone] is present |
| Instance.ProfileIssuesPasses | rules/rule_ibm_is_instance.go:70-74 | `ProfileIssues` draws nothing exactly when `profile` evaluates to a string that is non-empty |
| Instance.ImageIssuesPasses | rules/rule_ibm_is_instance.go:77-81 | `ImageIssues` draws nothing exactly when `image` evaluates to a string that is non-empty |
| Instance.Passes | rules/rule_ibm_is_instance.go:63-82 | A resource draws no issue and no error exactly when `RequiredIssuesClean` holds; `ProfileIssuesClean` holds; `ImageIssuesClean` holds |
| Instance.ProfileErrorEnds | rules/rule_ibm_is_instance.go:70-81 | An evaluation error on `profile` ends the resource's check with that error; `image` is not looked at. |
| Instance.KeysNotRequired | rules/rule_ibm_is_instance.go:63-82 | `keys` is in the schema but not required. |
| InstanceAction.CheckResource | rules/rule_ibm_is_instance_action.go:49-93 | The checks on one resource run in source order: the issues emitted and the error returned are those of `ResourceIssues`, an evaluation error ending the resource's check |
| InstanceAction.Check | rules/rule_ibm_is_instance_action.go:36-96 | Over the `ibm_is_instance_action` resources, in order, emits exactly the issues `ResourceIssues` gives each and returns the first evaluation error, checking no resource after it; a failed content fetch is returned before any issue |
| InstanceAction.Passes | rules/rule_ibm_is_instance_action.go:49-93 | A resource draws no issue and no error exactly when every attribute of [action, instance] is present; `action` evaluates to one of {start, stop, restart}; (whenever `force` is present: `force` evaluates) |
| InstanceClusterNetworkAttachment.CheckSubnet | rules/rule_ibm_is_instance_cluster_network_attachment.go:76-152 | For one nested block, emits exactly the issues of `SubnetIssues`: One doubly nested block: a `subnet` block needs `id`. |
| InstanceClusterNetworkAttachment.CheckSubnets | rules/rule_ibm_is_instance_cluster_network_attachment.go:76-152 | Runs the nested-block check over every nested block in order, tracking whether a `subnet` block occurred; The `subnet` loop, then the test on whether such a block exists. |
| InstanceClusterNetworkAttachment.SubnetIssuesPasses | rules/rule_ibm_is_instance_cluster_network_attachment.go:76-152 | A nested `subnet` block draws nothing exactly when `id` is present |
| InstanceClusterNetworkAttachment.SubnetsIssuesPasses | rules/rule_ibm_is_instance_cluster_network_attachment.go:76-152 | The loop over the nested blocks draws nothing exactly when every `subnet` block is clean and at least one exists |
| InstanceClusterNetworkAttachment.NoSubnetReported | rules/rule_ibm_is_instance_cluster_network_attachment.go:121-141 | Without any `subnet` block, the `subnet` loop draws exactly one issue, "subnet block must be specified in cluster_network_interface", at `b`'s range. |
| InstanceClusterNetworkAttachment.CheckInterface | rules/rule_ibm_is_instance_cluster_network_attachment.go:117-142 | For one nested block, emits exactly the issues of `InterfaceIssues`: One nested block: a `cluster_network_interface` block needs a `subnet` block. |
| InstanceClusterNetworkAttachment.CheckInterfaces | rules/rule_ibm_is_instance_cluster_network_attachment.go:115-151 | Runs the nested-block check over every nested block in order, tracking whether a `cluster_network_interface` block occurred; The `cluster_network_interface` loop, then the test on whether such a block exists. |
| InstanceClusterNetworkAttachment.InterfaceIssuesPasses | rules/rule_ibm_is_instance_cluster_network_attachment.go:117-142 | A nested `cluster_network_interface` block draws nothing exactly when `SubnetsIssuesClean` holds |
| InstanceClusterNetworkAttachment.InterfacesIssuesPasses | rules/rule_ibm_is_instance_cluster_network_attachment.go:115-151 | The loop over the nested blocks draws nothing exactly when every `cluster_network_interface` block is clean and at least one exists |
| InstanceClusterNetworkAttachment.NoClusterNetworkInterfaceReported | rules/rule_ibm_is_instance_cluster_network_attachment.go:115-151 | Without any `cluster_network_interface` block, the `cluster_network_interface` loop draws exactly one issue, "cluster_network_interface block must be specified", at `b`'s range. |
| InstanceClusterNetworkAttachment.ClusterNetworkInterfaceWithoutSubnetReported | rules/rule_ibm_is_instance_cluster_network_attachment.go:115-143 | Each `cluster_network_interface` block without a `subnet` block draws "subnet block must be specified in cluster_network_interface" at its own range. |
| InstanceClusterNetworkAttachment.CheckResource | rules/rule_ibm_is_instance_cluster_network_attachment.go:76-152 | The checks on one resource run in source order: the issues emitted and the error returned are those of `ResourceIssues`, an evaluation error ending the resource's check |
| InstanceClusterNetworkAttachment.Check | rules/rule_ibm_is_instance_cluster_network_attachment.go:36-155 | Over the `ibm_is_instance_cluster_network_attachment` resources, in order, emits exactly the issues `ResourceIssues` gives each and returns the first evaluation error, checking no resource after it; a failed content fetch is returned before any issue |
| InstanceClusterNetworkAttachment.Passes | rules/rule_ibm_is_instance_cluster_network_attachment.go:76-152 | A resource draws no issue and no error exactly when every attribute of [instance_id, name] is present; `name` evaluates to 1 to 63 bytes; `InterfacesIssuesClean` holds |
| InstanceDiskManagement.CheckDisk | rules/rule_ibm_is_instance_disk_management.go:71-110 | For one nested block, emits exactly the issues of `DiskIssues`: One nested block: a `disks` block needs `id`, and a name it has must be 1 to 63 bytes long. An evaluation error is returned at once. |
| InstanceDiskManagement.CheckDisks | rules/rule_ibm_is_instance_disk_management.go:69-119 | Runs the nested-block check over every nested block in order, tracking whether a `disks` block occurred; The `disks` loop, then the test on whether such a block exists. An evaluation error is returned at once. |
| InstanceDiskManagement.DiskIssuesPasses | rules/rule_ibm_is_instance_disk_management.go:71-110 | A nested `disks` block draws nothing exactly when every attribute of [id] is present; `name` evaluates to 1 to 63 bytes |
| InstanceDiskManagement.DisksIssuesPasses | rules/rule_ibm_is_instance_disk_management.go:69-119 | The loop over the nested blocks draws nothing exactly when every `disks` block is clean and at least one exists |
| InstanceDiskManagement.NoDisksReported | rules/rule_ibm_is_instance_disk_management.go:69-119 | Without any `disks` block, the `disks` loop draws exactly one issue, "at least one disks block must be specified", at `b`'s range. |
| InstanceDiskManagement.CheckResource | rules/rule_ibm_is_instance_disk_management.go:58-120 | The checks on one resource run in source order: the issues emitted and the error returned are those of `ResourceIssues`, an evaluation error ending the resource's check |
| InstanceDiskManagement.Check | rules/rule_ibm_is_instance_disk_management.go:36-123 | Over the `ibm_is_instance_disk_management` resources, in order, emits exactly the issues `ResourceIssues` gives each and returns the first evaluation error, checking no resource after it; a failed content fetch is returned before any issue |
| InstanceDiskManagement.Passes | rules/rule_ibm_is_instance_disk_management.go:58-120 | A resource draws no issue and no error exactly when every attribute of [instance] is present; `DisksIssuesClean` holds |
| InstanceGroup.CheckResource | rules/rule_ibm_is_instance_group.go:54-83 | The checks on one resource run in source order: the issues emitted and the error returned are those of `ResourceIssues`, an evaluation error ending the resource's check |
| InstanceGroup.Check | rules/rule_ibm_is_instance_group.go:40-86 | Over the `ibm_is_instance_group` resources, in order, emits exactly the issues `ResourceIssues` gives each and returns the first evaluation error, checking no resource after it; a failed content fetch is returned before any issue |
| InstanceGroup.Passes | rules/rule_ibm_is_instance_group.go:54-83 | A resource draws no issue and no error exactly when every attribute of [name, instance_template, subnets] is present; `instance_count` evaluates to at least 0 |
| InstanceGroupManager.CheckResource | rules/rule_ibm_is_instance_group_manager.go:58-97 | The checks on one resource run in source order: the issues emitted and the error returned are those of `ResourceIssues`, an evaluation error ending the resource's check |
| InstanceGroupManager.Check | rules/rule_ibm_is_instance_group_manager.go:40-100 | Over the `ibm_is_instance_group_manager` resources, in order, emits exactly the issues `ResourceIssues` gives each and returns the first evaluation error, checking no resource after it; a failed content fetch is returned before any issue |
| InstanceGroupManager.Passes | rules/rule_ibm_is_instance_group_manager.go:58-97 | A resource draws no issue and no error exactly when every attribute of [name, instance_group, manager_type, enable_manager] is present; `manager_type` evaluates to one of {autoscale, scheduled}; the membership counts evaluate, are not negative and the maximum is not below the minimum |
| InstanceGroupManagerAction.CheckResource | rules/rule_ibm_is_instance_group_manager_action.go:58-97 | The checks on one resource run in source order: the issues emitted and the error returned are those of `ResourceIssues`, an evaluation error ending the resource's check |
| InstanceGroupManagerAction.Check | rules/rule_ibm_is_instance_group_manager_action.go:41-100 | Over the `ibm_is_instance_group_manager_action` resources, in order, emits exactly the issues `ResourceIssues` gives each and returns the first evaluation error, checking no resource after it; a failed content fetch is returned before any issue |
| InstanceGroupManagerAction.Passes | rules/rule_ibm_is_instance_group_manager_action.go:58-97 | A resource draws no issue and no error exactly when every attribute of [name, instance_group, instance_group_manager, cron_spec] is present; `cron_spec` evaluates to a string that passes `isValidCronSpec`; the membership counts evaluate, are not negative and the maximum is not below the minimum |
| InstanceGroupManagerPolicy.CheckResource | rules/rule_ibm_is_instance_group_manager_policy.go:56-140 | The checks on one resource run in source order: the issues emitted and the error returned are those of `ResourceIssues`, an evaluation error ending the resource's check |
| InstanceGroupManagerPolicy.Check | rules/rule_ibm_is_instance_group_manager_policy.go:40-143 | Over the `ibm_is_instance_group_manager_policy` resources, in order, emits exactly the issues `ResourceIssues` gives each and returns the first evaluation error, checking no resource after it; a failed content fetch is returned before any issue |
| InstanceGroupManagerPolicy.Passes | rules/rule_ibm_is_instance_group_manager_policy.go:56-140 | A resource draws no issue and no error exactly when every attribute of [name, instance_group, instance_group_manager, metric_type, metric_value, policy_type] is present; `metric_type` evaluates to one of {cpu, memory, network_in, network_out, custom}; `policy_type` evaluates to one of {target, range, percentage}; `metric_value` evaluates to a positive number |
| InstanceGroupMembership.CheckResource | rules/rule_ibm_is_instance_group_membership.go:53-88 | The checks on one resource run in source order: the issues emitted and the error returned are those of `ResourceIssues`, an evaluation error ending the resource's check |
| InstanceGroupMembership.Check | rules/rule_ibm_is_instance_group_membership.go:40-91 | Over the `ibm_is_instance_group_membership` resources, in order, emits exactly the issues `ResourceIssues` gives each and returns the first evaluation error, checking no resource after it; a failed content fetch is returned before any issue |
| InstanceGroupMembership.Passes | rules/rule_ibm_is_instance_group_membership.go:53-88 | A resource draws no issue and no error exactly when every attribute of [name, instance_group, instance_group_membership] is present; `name` evaluates to a string that is non-empty |
| InstanceNetworkAttachment.CheckInterface | rules/rule_ibm_is_instance_network_attachment.go:99-108 | For one nested block, emits exactly the issues of `InterfaceIssues`: One nested block: a `virtual_network_interface` block needs `id`. |
| InstanceNetworkAttachment.CheckInterfaces | rules/rule_ibm_is_instance_network_attachment.go:97-117 | Runs the nested-block check over every nested block in order, tracking whether a `virtual_network_interface` block occurred; The `virtual_network_interface` loop, then the test on whether such a block exists. |
| InstanceNetworkAttachment.InterfaceIssuesPasses | rules/rule_ibm_is_instance_network_attachment.go:99-108 | A nested `virtual_network_interface` block draws nothing exactly when `id` is present |
| InstanceNetworkAttachment.InterfacesIssuesPasses | rules/rule_ibm_is_instance_network_attachment.go:97-117 | The loop over the nested blocks draws nothing exactly when every `virtual_network_interface` block is clean and at least one exists |
| InstanceNetworkAttachment.NoVirtualNetworkInterfaceReported | rules/rule_ibm_is_instance_network_attachment.go:97-117 | Without any `virtual_network_interface` block, the `virtual_network_interface` loop draws exactly one issue, "virtual_network_interface block must be specified", at `b`'s range. |
| InstanceNetworkAttachment.CheckResource | rules/rule_ibm_is_instance_network_attachment.go:58-118 | The checks on one resource run in source order: the issues emitted and the error returned are those of `ResourceIssues`, an evaluation error ending the resource's check |
| InstanceNetworkAttachment.Check | rules/rule_ibm_is_instance_network_attachment.go:36-121 | Over the `ibm_is_instance_network_attachment` resources, in order, emits exactly the issues `ResourceIssues` gives each and returns the first evaluation error, checking no resource after it; a failed content fetch is returned before any issue |
| InstanceNetworkAttachment.Passes | rules/rule_ibm_is_instance_network_attachment.go:58-118 | A resource draws no issue and no error exactly when every attribute of [instance, name] is present; `name` evaluates to 1 to 63 bytes; `InterfacesIssuesClean` holds |
| InstanceNetworkInterface.CheckResource | rules/rule_ibm_is_instance_network_interface.go:53-118 | The checks on one resource run in source order: the issues emitted and the error returned are those of `ResourceIssues`, an evaluation error ending the resource's check |
| InstanceNetworkInterface.Check | rules/rule_ibm_is_instance_network_interface.go:37-121 | Over the `ibm_is_instance_network_interface` resources, in order, emits exactly the issues `ResourceIssues` gives each and returns the first evaluation error, checking no resource after it; a failed content fetch is returned before any issue |
| InstanceNetworkInterface.Passes | rules/rule_ibm_is_instance_network_interface.go:53-118 | A resource draws no issue and no error exactly when every attribute of [instance, subnet, name] is present; `name` evaluates to 1 to 63 bytes; `primary_ipv4_address` evaluates to an address `isValidIPv4` accepts; (whenever `allow_ip_spoofing` is present: `allow_ip_spoofing` evaluates) |
| InstanceTemplate.CheckInterface | rules/rule_ibm_is_instance_template.go:73-187 | For one nested block, emits exactly the issues of `InterfaceIssues`: One doubly nested block: a `virtual_network_interface` block needs `id`. |
| InstanceTemplate.CheckInterfaces | rules/rule_ibm_is_instance_template.go:73-187 | Runs the nested-block check over every nested block in order, tracking whether a `virtual_network_interface` block occurred; The `virtual_network_interface` loop, then the test on whether such a block exists. |
| InstanceTemplate.InterfaceIssuesPasses | rules/rule_ibm_is_instance_template.go:73-187 | A nested `virtual_network_interface` block draws nothing exactly when `id` is present |
| InstanceTemplate.InterfacesIssuesPasses | rules/rule_ibm_is_instance_template.go:73-187 | The loop over the nested blocks draws nothing exactly when every `virtual_network_interface` block is clean and at least one exists |
| InstanceTemplate.NoVirtualNetworkInterfaceReported | rules/rule_ibm_is_instance_template.go:164-184 | Without any `virtual_network_interface` block, the `virtual_network_interface` loop draws exactly one issue, "virtual_network_interface block must be specified in primary_network_attachment", at `b`'s range. |
| InstanceTemplate.CheckAttachment | rules/rule_ibm_is_instance_template.go:155-185 | For one nested block, emits exactly the issues of `AttachmentIssues`: One nested block: a `primary_network_attachment` block needs `name` and a `virtual_network_interface` block. |
| InstanceTemplate.CheckAttachments | rules/rule_ibm_is_instance_template.go:154-186 | Runs the nested-block check over every nested block in order, tracking whether a `primary_network_attachment` block occurred; The `primary_network_attachment` loop. |
| InstanceTemplate.AttachmentIssuesPasses | rules/rule_ibm_is_instance_template.go:155-185 | A nested `primary_network_attachment` block draws nothing exactly when `name` is present; `InterfacesIssuesClean` holds |
| InstanceTemplate.AttachmentsIssuesPasses | rules/rule_ibm_is_instance_template.go:154-186 | The loop over the nested blocks draws nothing exactly when every `primary_network_attachment` block is clean |
| InstanceTemplate.PrimaryNetworkAttachmentWithoutVirtualNetworkInterfaceReported | rules/rule_ibm_is_instance_template.go:154-186 | Each `primary_network_attachment` block without a `virtual_network_interface` block draws "virtual_network_interface block must be specified in primary_network_attachment" at its own range. |
| InstanceTemplate.CheckResource | rules/rule_ibm_is_instance_template.go:73-187 | The checks on one resource run in source order: the issues emitted and the error returned are those of `ResourceIssues`, an evaluation error ending the resource's check |
| InstanceTemplate.Check | rules/rule_ibm_is_instance_template.go:36-190 | Over the `ibm_is_instance_template` resources, in order, emits exactly the issues `ResourceIssues` gives each and returns the first evaluation error, checking no resource after it; a failed content fetch is returned before any issue |
| InstanceTemplate.Passes | rules/rule_ibm_is_instance_template.go:73-187 | A resource draws no issue and no error exactly when every attribute of [name, profile, image, vpc, zone, keys] is present; `name` evaluates to 1 to 63 bytes; `profile` evaluates to one of {bx2-2x8, bx2-4x16, cx2-2x4, mx2-2x16}; `zone` evaluates to a string that passes `isValidZone`; `AttachmentsIssuesClean` holds |
| InstanceVolumeAttachment.CheckResource | rules/rule_ibm_is_instance_volume_attachment.go:56-160 | The checks on one resource run in source order: the issues emitted and the error returned are those of `ResourceIssues`, an evaluation error ending the resource's check |
| InstanceVolumeAttachment.Check | rules/rule_ibm_is_instance_volume_attachment.go:36-163 | Over the `ibm_is_instance_volume_attachment` resources, in order, emits exactly the issues `ResourceIssues` gives each and returns the first evaluation error, checking no resource after it; a failed content fetch is returned before any issue |
| InstanceVolumeAttachment.Passes | rules/rule_ibm_is_instance_volume_attachment.go:56-160 | A resource draws no issue and no error exactly when every attribute of [instance, name] is present; exactly one of `volume` and `volume_name` is present; `name` evaluates to 1 to 63 bytes; `profile` evaluates to one of {general-purpose, custom, 5iops-tier, 10iops-tier}; `capacity` evaluates into 10..2000 |
| IpsecPolicy.CheckResource | rules/rule_ibm_is_ipsec_policy.go:52-159 | The checks on one resource run in source order: the issues emitted and the error returned are those of `ResourceIssues`, an evaluation error ending the resource's check |
| IpsecPolicy.Check | rules/rule_ibm_is_ipsec_policy.go:36-162 | Over the `ibm_is_ipsec_policy` resources, in order, emits exactly the issues `ResourceIssues` gives each and returns the first evaluation error, checking no resource after it; a failed content fetch is returned before any issue |
| IpsecPolicy.Passes | rules/rule_ibm_is_ipsec_policy.go:52-159 | A resource draws no issue and no error exactly when every attribute of [name, authentication_algorithm, encryption_algorithm, pfs] is present; `authentication_algorithm` evaluates to one of {md5, sha1, sha256, sha384, sha512}; `encryption_algorithm` evaluates to one of {triple_des, aes128, aes192, aes256}; `pfs` evaluates to one of {disabled, group_2, group_5, group_14}; `key_lifetime` evaluates into 300..86400 |
| Lb.CheckResource | rules/rule_ibm_is_lb.go:52-113 | The checks on one resource run in source order: the issues emitted and the error returned are those of `ResourceIssues`, an evaluation error ending the resource's check |
| Lb.Check | rules/rule_ibm_is_lb.go:36-116 | Over the `ibm_is_lb` resources, in order, emits exactly the issues `ResourceIssues` gives each and returns the first evaluation error, checking no resource after it; a failed content fetch is returned before any issue |
| Lb.Passes | rules/rule_ibm_is_lb.go:52-113 | A resource draws no issue and no error exactly when every attribute of [name, subnets] is present; `type` evaluates to one of {public, private}; `profile` evaluates to one of Profiles |
| LbListener.CheckHttps | rules/rule_ibm_is_lb_listener.go:66-121 | Emits exactly the issues of `HttpsIssues`; The second look at `protocol`: `https` needs `certificate_instance`, reported at the protocol. An evaluation error is returned at once. |
| LbListener.HttpsPasses | rules/rule_ibm_is_lb_listener.go:66-121 | `HttpsIssues` draws nothing exactly when (whenever `protocol` is present: `protocol` evaluates; (whenever `protocol` is `https`: `certificate_instance` is present)) |
| LbListener.CheckResource | rules/rule_ibm_is_lb_listener.go:52-124 | The checks on one resource run in source order: the issues emitted and the error returned are those of `ResourceIssues`, an evaluation error ending the resource's check |
| LbListener.Check | rules/rule_ibm_is_lb_listener.go:36-127 | Over the `ibm_is_lb_listener` resources, in order, emits exactly the issues `ResourceIssues` gives each and returns the first evaluation error, checking no resource after it; a failed content fetch is returned before any issue |
| LbListener.Passes | rules/rule_ibm_is_lb_listener.go:52-124 | A resource draws no issue and no error exactly when every attribute of [lb, port, protocol] is present; `protocol` evaluates to one of {http, https, tcp, udp}; `port` evaluates into 1..65535; `HttpsClean` holds |
| LbListener.CertificateOnlyForHttps | rules/rule_ibm_is_lb_listener.go:52-124 | A listener over any protocol but `https` is never asked for a certificate. |
| LbListener.ProtocolErrorReportedOnce | rules/rule_ibm_is_lb_listener.go:66-87 | A `protocol` that fails to evaluate ends the check at its first evaluation, so the second one is never reached. |
| LbListenerPolicy.CheckAction | rules/rule_ibm_is_lb_listener_policy.go:80-118 | Emits exactly the issues of `ActionIssues`; The `action` check: a value outside the set is reported, and `redirect` asks for both targets. An evaluation error is returned at once. |
| LbListenerPolicy.ActionPasses | rules/rule_ibm_is_lb_listener_policy.go:80-118 | `ActionIssues` draws nothing exactly when (whenever `action` is present: `action` evaluates; its value is one of {forward, redirect, reject}; (whenever `action` is `redirect`: `target_url` is present; `target_http_status_code` is present)) |
| LbListenerPolicy.ValidateRule | rules/rule_ibm_is_lb_listener_policy.go:176-241 | Emits exactly the issues of `RuleIssues`: `validateRule`: a `rules` block needs four attributes, and its `condition` and `type` come from fixed sets. An evaluation error is returned at once. |
| LbListenerPolicy.CheckRules | rules/rule_ibm_is_lb_listener_policy.go:163-170 | Runs the nested-block check over every nested block in order, tracking whether a `rules` block occurred; The `rules` loop. An evaluation error is returned at once. |
| LbListenerPolicy.RuleIssuesPasses | rules/rule_ibm_is_lb_listener_policy.go:164-169 | A nested `rules` block draws nothing exactly when every attribute of [condition, type, field, value] is present; `condition` evaluates to one of {contains, equals, matches_regex, not_contains, not_equals}; `type` evaluates to one of {header, host, path, query, body, cookie} |
| LbListenerPolicy.RulesIssuesPasses | rules/rule_ibm_is_lb_listener_policy.go:163-170 | The loop over the nested blocks draws nothing exactly when every `rules` block is clean |
| LbListenerPolicy.CheckResource | rules/rule_ibm_is_lb_listener_policy.go:66-171 | The checks on one resource run in source order: the issues emitted and the error returned are those of `ResourceIssues`, an evaluation error ending the resource's check |
| LbListenerPolicy.Check | rules/rule_ibm_is_lb_listener_policy.go:36-174 | Over the `ibm_is_lb_listener_policy` resources, in order, emits exactly the issues `ResourceIssues` gives each and returns the first evaluation error, checking no resource after it; a failed content fetch is returned before any issue |
| LbListenerPolicy.Passes | rules/rule_ibm_is_lb_listener_policy.go:66-171 | A resource draws no issue and no error exactly when every attribute of [lb, listener, action, priority, name] is present; `ActionClean` holds; `priority` evaluates into 1..10; `target_http_status_code` evaluates to one of {301, 302, 303, 307, 308}; `RulesIssuesClean` holds |
| LbListenerPolicy.RedirectNeedsTargets | rules/rule_ibm_is_lb_listener_policy.go:66-171 | A `redirect` lacking both targets draws two separate issues, both at the action's range; the other actions never ask for targets. |
| LbPool.HasHealthCheck | rules/rule_ibm_is_lb_pool.go:161-171 | The `hasHealthCheck` loop, which stops at the first present attribute. |
| LbPool.CheckHealthRanges | rules/rule_ibm_is_lb_pool.go:207-246 | Emits exactly the issues of `HealthRanges`; The three numeric health checks, each skipped when its value does not evaluate. |
| LbPool.ValidateHealthCheck | rules/rule_ibm_is_lb_pool.go:160-249 | Emits exactly the issues of `HealthIssues`: `validateHealthCheck`: nothing unless some health attribute is present. An evaluation error is returned at once. |
| LbPool.HealthPasses | rules/rule_ibm_is_lb_pool.go:160-249 | `HealthIssues` draws nothing exactly when (whenever `HealthConfigured(b)`: every attribute of [health_delay, health_retries, health_timeout, health_type] is present; `health_type` evaluates to one of {http, https, tcp}; `health_delay`, when it evaluates, lies in 1..300; `health_retries`, when it evaluates, lies in 1..10; `health_timeout`, when it evaluates, lies in 1..120) |
| LbPool.CheckResource | rules/rule_ibm_is_lb_pool.go:57-155 | The checks on one resource run in source order: the issues emitted and the error returned are those of `ResourceIssues`, an evaluation error ending the resource's check |
| LbPool.Check | rules/rule_ibm_is_lb_pool.go:36-158 | Over the `ibm_is_lb_pool` resources, in order, emits exactly the issues `ResourceIssues` gives each and returns the first evaluation error, checking no resource after it; a failed content fetch is returned before any issue |
| LbPool.Passes | rules/rule_ibm_is_lb_pool.go:57-155 | A resource draws no issue and no error exactly when every attribute of [name, lb, algorithm, protocol] is present; `algorithm` evaluates to one of {round_robin, weighted_round_robin, least_connections}; `protocol` evaluates to one of {http, https, tcp, udp}; `session_persistence_type` evaluates to one of {source_ip, http_cookie, app_cookie} and, when it is `app_cookie`, `session_persistence_app_cookie_name` is present; `HealthClean` holds |
| LbPool.HealthMissingReported | rules/rule_ibm_is_lb_pool.go:173-183 | Once any health attribute is present, each of the four that is absent draws exactly one issue at the resource; with none present the health check reports nothing at all. |
| LbPool.MissingHealthOnce | rules/rule_ibm_is_lb_pool.go:173-183 | Each absent health attribute is named once by the required-attribute loop. |
| LbPool.HealthIssuesShape | rules/rule_ibm_is_lb_pool.go:173-246 | A configured health check reports the missing attributes first, then the type and the ranges. |
| LbPool.HealthAfterMissingAvoids | rules/rule_ibm_is_lb_pool.go:185-246 | The type and range checks never report a missing-attribute message. |
| LbPool.UnknownHealthTypeReported | rules/rule_ibm_is_lb_pool.go:185-205 | A present `health_type` is only checked once the health check is configured, which its own presence ensures: an unknown type is always reported, once, at its range. |
| LbPoolMember.CheckResource | rules/rule_ibm_is_lb_pool_member.go:52-122 | The checks on one resource run in source order: the issues emitted and the error returned are those of `ResourceIssues`, an evaluation error ending the resource's check |
| LbPoolMember.Check | rules/rule_ibm_is_lb_pool_member.go:36-125 | Over the `ibm_is_lb_pool_member` resources, in order, emits exactly the issues `ResourceIssues` gives each and returns the first evaluation error, checking no resource after it; a failed content fetch is returned before any issue |
| LbPoolMember.Passes | rules/rule_ibm_is_lb_pool_member.go:52-122 | A resource draws no issue and no error exactly when every attribute of [lb, pool, port] is present; exactly one of `target_address` and `target_id` is present; `port` evaluates into 1..65535; `weight` evaluates into 0..100 |
| NetworkAclRule.CheckPortRanges | rules/rule_ibm_is_network_acl_rule.go:244-258 | Emits exactly the issues of `PortRangeIssues`; The range issues of the `portAttrs` loop of `validatePortBlock`. |
| NetworkAclRule.PortRangeStep | rules/rule_ibm_is_network_acl_rule.go:87-198 | One more iteration of the `portAttrs` loop. |
| NetworkAclRule.CheckPortOrder | rules/rule_ibm_is_network_acl_rule.go:261-274 | Emits exactly the issues of `PortOrderIssues`; The consistency test of `validatePortBlock`, which ignores evaluation errors. |
| NetworkAclRule.ValidatePortBlock | rules/rule_ibm_is_network_acl_rule.go:242-277 | Emits exactly the issues of `PortIssues`: each present port attribute that evaluates outside 1..65535, then the order test; never returns an error |
| NetworkAclRule.ValidateIcmpBlock | rules/rule_ibm_is_network_acl_rule.go:203-232 | Emits exactly the issues of `IcmpIssues`: a `type` outside 0..254 and a `code` outside 0..255, each skipped when it does not evaluate; never returns an error |
| NetworkAclRule.CheckAttributes | rules/rule_ibm_is_network_acl_rule.go:96-153 | Emits exactly the issues of `AttributeIssues`; The required-attribute loop and the action and direction checks. An evaluation error is returned at once. |
| NetworkAclRule.ValidateProtocolBlock | rules/rule_ibm_is_network_acl_rule.go:156-176 | Emits exactly the issues of `ProtocolBlock`; The body of the `switch block.Type` loop; the validators never return an error. |
| NetworkAclRule.ValidateProtocolBlocks | rules/rule_ibm_is_network_acl_rule.go:155-189 | Emits the issues of every nested block's validator in block order, never fails, and reports whether an `icmp`, a `tcp` and a `udp` block occurred |
| NetworkAclRule.CheckProtocols | rules/rule_ibm_is_network_acl_rule.go:155-198 | Emits exactly the issues of `ProtocolIssues`: the protocol block loop, then the "only one protocol block" issue when more than one kind occurred |
| NetworkAclRule.CheckResource | rules/rule_ibm_is_network_acl_rule.go:87-198 | The checks on one resource run in source order: the issues emitted and the error returned are those of `ResourceIssues`, an evaluation error ending the resource's check |
| NetworkAclRule.Check | rules/rule_ibm_is_network_acl_rule.go:36-201 | Over the `ibm_is_network_acl_rule` resources, in order, emits exactly the issues `ResourceIssues` gives each and returns the first evaluation error, checking no resource after it; a failed content fetch is returned before any issue |
| NetworkAclRule.PortRangeIssuesIff | rules/rule_ibm_is_network_acl_rule.go:244-258 | The port range loop reports exactly the listed attributes that evaluate out of 1..65535. |
| NetworkAclRule.PortRangeNone | rules/rule_ibm_is_network_acl_rule.go:244-258 | The port range loop is silent exactly when every listed attribute is in 1..65535 or does not evaluate. |
| NetworkAclRule.ProtocolBlockPass | rules/rule_ibm_is_network_acl_rule.go:156-176 | A nested block draws nothing exactly when it is clean. |
| NetworkAclRule.Passes | rules/rule_ibm_is_network_acl_rule.go:87-198 | A resource draws no issue and no error exactly when every attribute of [network_acl, name, action, source, destination, direction] is present; `action` evaluates to one of {allow, deny}; `direction` evaluates to one of {inbound, outbound}; every nested block satisfies `ProtocolBlockClean`; `ProtocolCount(b) <= 1` |
| NetworkAclRule.ProtocolCountIff | rules/rule_ibm_is_network_acl_rule.go:180-191 | `protocolCount > 1` holds exactly when nested blocks of two different protocol kinds occur. |
| NetworkAclRule.OnlyAttributesFail | rules/rule_ibm_is_network_acl_rule.go:108-176 | The protocol validators never return an error: only the evaluation of `action` or `direction` can end the check early. |
| NetworkAclRule.ProtocolLoopAvoids | rules/rule_ibm_is_network_acl_rule.go:156-176 | No protocol block validator reports the protocol count message. |
| NetworkAclRule.AttributesAvoid | rules/rule_ibm_is_network_acl_rule.go:96-153 | Neither the required-attribute loop nor the enum checks report the protocol count message. |
| NetworkAclRule.OnlyOneProtocolOnce | rules/rule_ibm_is_network_acl_rule.go:180-198 | Once the attribute checks return no error, the resource carries the "only one protocol block" issue once when two or more protocol kinds occur and not at all otherwise. |
| NetworkAclRule.IcmpReports | rules/rule_ibm_is_network_acl_rule.go:203-232 | An ICMP type or code is reported exactly when it evaluates outside its range; a failed evaluation is skipped. |
| NetworkAclRule.PortOrderReports | rules/rule_ibm_is_network_acl_rule.go:261-274 | The port order test compares the evaluated values when both evaluate; an absent or unevaluable bound compares as zero, so an unevaluable `port_max` under a positive `port_min` is still reported. |
| NetworkAcls.CheckResource | rules/rule_ibm_is_networkacls.go:49-86 | The checks on one resource run in source order: the issues emitted and the error returned are those of `ResourceIssues`, an evaluation error ending the resource's check |
| NetworkAcls.Check | rules/rule_ibm_is_networkacls.go:36-89 | Over the `ibm_is_network_acls` resources, in order, emits exactly the issues `ResourceIssues` gives each and returns the first evaluation error, checking no resource after it; a failed content fetch is returned before any issue |
| NetworkAcls.Passes | rules/rule_ibm_is_networkacls.go:49-86 | A resource draws no issue and no error exactly when every attribute of [name, vpc] is present; `name` evaluates to 1 to 63 bytes |
| PlacementGroup.CheckResource | rules/rule_ibm_is_placement_group.go:50-112 | The checks on one resource run in source order: the issues emitted and the error returned are those of `ResourceIssues`, an evaluation error ending the resource's check |
| PlacementGroup.Check | rules/rule_ibm_is_placement_group.go:36-115 | Over the `ibm_is_placement_group` resources, in order, emits exactly the issues `ResourceIssues` gives each and returns the first evaluation error, checking no resource after it; a failed content fetch is returned before any issue |
| PlacementGroup.Passes | rules/rule_ibm_is_placement_group.go:50-112 | A resource draws no issue and no error exactly when every attribute of [strategy, name] is present; `strategy` evaluates to one of {host_spread, power_spread, rack_spread}; `name` evaluates to 1 to 63 bytes |
| PrivatePathServiceGateway.CheckResource | rules/rule_ibm_is_private_path_service_gateway.go:51-127 | The checks on one resource run in source order: the issues emitted and the error returned are those of `ResourceIssues`, an evaluation error ending the resource's check |
| PrivatePathServiceGateway.Check | rules/rule_ibm_is_private_path_service_gateway.go:36-130 | Over the `ibm_is_private_path_service_gateway` resources, in order, emits exactly the issues `ResourceIssues` gives each and returns the first evaluation error, checking no resource after it; a failed content fetch is returned before any issue |
| PrivatePathServiceGateway.Passes | rules/rule_ibm_is_private_path_service_gateway.go:51-127 | A resource draws no issue and no error exactly when every attribute of [name, load_balancer, default_access_policy] is present; `name` evaluates to 1 to 63 bytes; `default_access_policy` evaluates to one of AccessPolicies; `service_endpoints` evaluates to a list that satisfies `NonEmptyList` |
| PrivatePathServiceGatewayAccountPolicy.CheckResource | rules/rule_ibm_is_private_path_service_gateway_account_policy.go:49-100 | The checks on one resource run in source order: the issues emitted and the error returned are those of `ResourceIssues`, an evaluation error ending the resource's check |
| PrivatePathServiceGatewayAccountPolicy.Check | rules/rule_ibm_is_private_path_service_gateway_account_policy.go:36-103 | Over the `ibm_is_private_path_service_gateway_account_policy` resources, in order, emits exactly the issues `ResourceIssues` gives each and returns the first evaluation error, checking no resource after it; a failed content fetch is returned before any issue |
| PrivatePathServiceGatewayAccountPolicy.Passes | rules/rule_ibm_is_private_path_service_gateway_account_policy.go:49-100 | A resource draws no issue and no error exactly when every attribute of [access_policy, account, private_path_service_gateway] is present; `access_policy` evaluates to one of AccessPolicies; `account` evaluates to a string that satisfies `IsAccountId` |
| PrivatePathServiceGatewayEndpointGatewayBindingOperations.CheckResource | rules/rule_ibm_is_private_path_service_gateway_endpoint_gateway_binding_operations.go:49-87 | The checks on one resource run in source order: the issues emitted and the error returned are those of `ResourceIssues`, an evaluation error ending the resource's check |
| PrivatePathServiceGatewayEndpointGatewayBindingOperations.Check | rules/rule_ibm_is_private_path_service_gateway_endpoint_gateway_binding_operations.go:36-90 | Over the `ibm_is_private_path_service_gateway_endpoint_gateway_binding_operations` resources, in order, emits exactly the issues `ResourceIssues` gives each and returns the first evaluation error, checking no resource after it; a failed content fetch is returned before any issue |
| PrivatePathServiceGatewayEndpointGatewayBindingOperations.Passes | rules/rule_ibm_is_private_path_service_gateway_endpoint_gateway_binding_operations.go:49-87 | A resource draws no issue and no error exactly when every attribute of [access_policy, endpoint_gateway_binding, private_path_service_gateway] is present; `access_policy` evaluates to one of AccessPolicies |
| PrivatePathServiceGatewayOperations.CheckResource | rules/rule_ibm_is_private_path_service_gateway_operations.go:48-69 | The checks on one resource run in source order: the issues emitted and the error returned are those of `ResourceIssues`, an evaluation error ending the resource's check |
| PrivatePathServiceGatewayOperations.Check | rules/rule_ibm_is_private_path_service_gateway_operations.go:36-72 | Over the `ibm_is_private_path_service_gateway_operations` resources, in order, emits exactly the issues `ResourceIssues` gives each and returns the first evaluation error, checking no resource after it; a failed content fetch is returned before any issue |
| PrivatePathServiceGatewayOperations.Passes | rules/rule_ibm_is_private_path_service_gateway_operations.go:48-69 | A resource draws no issue and no error exactly when every attribute of [published, private_path_service_gateway] is present; (whenever `published` is present: `published` evaluates) |
| PrivatePathServiceGatewayRevokeAccount.CheckResource | rules/rule_ibm_is_private_path_service_gateway_revoke_account.go:48-77 | The checks on one resource run in source order: the issues emitted and the error returned are those of `ResourceIssues`, an evaluation error ending the resource's check |
| PrivatePathServiceGatewayRevokeAccount.Check | rules/rule_ibm_is_private_path_service_gateway_revoke_account.go:36-80 | Over the `ibm_is_private_path_service_gateway_revoke_account` resources, in order, emits exactly the issues `ResourceIssues` gives each and returns the first evaluation error, checking no resource after it; a failed content fetch is returned before any issue |
| PrivatePathServiceGatewayRevokeAccount.Passes | rules/rule_ibm_is_private_path_service_gateway_revoke_account.go:48-77 | A resource draws no issue and no error exactly when every attribute of [account, private_path_service_gateway] is present; `account` evaluates to a string that satisfies `IsAccountId` |
| PublicGateway.CheckResource | rules/rule_ibm_is_public_gateway.go:51-105 | The checks on one resource run in source order: the issues emitted and the error returned are those of `ResourceIssues`, an evaluation error ending the resource's check |
| PublicGateway.Check | rules/rule_ibm_is_public_gateway.go:36-108 | Over the `ibm_is_public_gateway` resources, in order, emits exactly the issues `ResourceIssues` gives each and returns the first evaluation error, checking no resource after it; a failed content fetch is returned before any issue |
| PublicGateway.Passes | rules/rule_ibm_is_public_gateway.go:51-105 | A resource draws no issue and no error exactly when every attribute of [name, vpc, zone] is present; `name` evaluates to 1 to 63 bytes; `zone` evaluates to a string that passes `isValidZone` |
| Reservation.CheckNested | rules/rule_ibm_is_reservation.go:79-141 | Emits exactly the issues of `NestedIssues`; One nested block, by the `switch block.Type` arms; any other type is ignored. An evaluation error is returned at once. |
| Reservation.AbsentBlocks | rules/rule_ibm_is_reservation.go:144-166 | The three block kinds a reservation must hold, each reported at the DefRange when absent. |
| Reservation.CheckBlocks | rules/rule_ibm_is_reservation.go:74-166 | Emits exactly the issues of `BlocksIssues`: the nested-block loop in block order, then one issue for each of `capacity`, `committed_use` and `profile` that no nested block has; an evaluation error is returned at once |
| Reservation.ReportAbsent | rules/rule_ibm_is_reservation.go:72-184 | Emits exactly the issues of `AbsentBlocks`; The three block kinds a reservation must hold, each reported at the DefRange when absent. |
| Reservation.BlocksPasses | rules/rule_ibm_is_reservation.go:74-166 | `BlocksIssues` draws nothing exactly when every nested block satisfies `NestedClean`; a `capacity` block exists; a `committed_use` block exists; a `profile` block exists |
| Reservation.CheckResource | rules/rule_ibm_is_reservation.go:72-184 | The checks on one resource run in source order: the issues emitted and the error returned are those of `ResourceIssues`, an evaluation error ending the resource's check |
| Reservation.Check | rules/rule_ibm_is_reservation.go:34-187 | Over the `ibm_is_reservation` resources, in order, emits exactly the issues `ResourceIssues` gives each and returns the first evaluation error, checking no resource after it; a failed content fetch is returned before any issue |
| Reservation.Passes | rules/rule_ibm_is_reservation.go:72-184 | A resource draws no issue and no error exactly when `BlocksClean` holds; `zone` evaluates to a string that passes `isValidZone` |
| Reservation.EmptyReservation | rules/rule_ibm_is_reservation.go:144-166 | A reservation without nested blocks draws the three presence issues, in the source's order. |
| ReservationActivate.CheckResource | rules/rule_ibm_is_reservation_activate.go:45-53 | The checks on one resource run in source order: the issues emitted and the error returned are those of `ResourceIssues`, an evaluation error ending the resource's check |
| ReservationActivate.Check | rules/rule_ibm_is_reservation_activate.go:34-56 | Over the `ibm_is_reservation_activate` resources, in order, emits exactly the issues `ResourceIssues` gives each and returns the first evaluation error, checking no resource after it; a failed content fetch is returned before any issue |
| ReservationActivate.Passes | rules/rule_ibm_is_reservation_activate.go:45-53 | A resource draws no issue and no error exactly when every attribute of [reservation] is present |
| SecurityGroup.CheckResource | rules/rule_ibm_is_security_group.go:49-86 | The checks on one resource run in source order: the issues emitted and the error returned are those of `ResourceIssues`, an evaluation error ending the resource's check |
| SecurityGroup.Check | rules/rule_ibm_is_security_group.go:36-89 | Over the `ibm_is_security_group` resources, in order, emits exactly the issues `ResourceIssues` gives each and returns the first evaluation error, checking no resource after it; a failed content fetch is returned before any issue |
| SecurityGroup.Passes | rules/rule_ibm_is_security_group.go:49-86 | A resource draws no issue and no error exactly when every attribute of [name, vpc] is present; `name` evaluates to 1 to 63 bytes |
| SecurityGroupRule.ValidateIcmpBlock | rules/rule_ibm_is_security_group_rule.go:171-205 | Emits exactly the issues of `IcmpBlock`: `validateICMPBlock`: an evaluation error is returned. An evaluation error is returned at once. |
| SecurityGroupRule.CheckPortMin | rules/rule_ibm_is_security_group_rule.go:211-224 | Emits the `port_min` range issue when the value evaluates outside 1..65535 and returns an evaluation error at once; otherwise `minPort` is the evaluated value, or 0 when absent |
| SecurityGroupRule.CheckPortMax | rules/rule_ibm_is_security_group_rule.go:226-248 | Emits exactly the issues of `PortMaxChecks`; The `port_max` half of `validatePortBlock`: its range, then its order against `minPort`. An evaluation error is returned at once. |
| SecurityGroupRule.ValidatePortBlock | rules/rule_ibm_is_security_group_rule.go:208-250 | Emits exactly the issues of `PortBlock`: `validatePortBlock`. An evaluation error is returned at once. |
| SecurityGroupRule.CheckAttributes | rules/rule_ibm_is_security_group_rule.go:81-116 | Emits exactly the issues of `AttributeIssues`; The required-attribute loop and the direction check. An evaluation error is returned at once. |
| SecurityGroupRule.ValidateProtocolBlock | rules/rule_ibm_is_security_group_rule.go:120-137 | Emits exactly the issues of `ProtocolBlock`; The body of the `switch block.Type` loop. An evaluation error is returned at once. |
| SecurityGroupRule.ValidateProtocolBlocks | rules/rule_ibm_is_security_group_rule.go:119-149 | Emits the issues of every nested block's validator in block order and returns the first error; without one, reports whether an `icmp`, a `tcp` and a `udp` block occurred |
| SecurityGroupRule.CheckProtocols | rules/rule_ibm_is_security_group_rule.go:119-166 | Emits exactly the issues of `ProtocolIssues`: the protocol block loop, then the "only one" issue when more than one kind occurred and the "at least one" issue when none did; an evaluation error is returned at once |
| SecurityGroupRule.CheckResource | rules/rule_ibm_is_security_group_rule.go:79-166 | The checks on one resource run in source order: the issues emitted and the error returned are those of `ResourceIssues`, an evaluation error ending the resource's check |
| SecurityGroupRule.Check | rules/rule_ibm_is_security_group_rule.go:36-169 | Over the `ibm_is_security_group_rule` resources, in order, emits exactly the issues `ResourceIssues` gives each and returns the first evaluation error, checking no resource after it; a failed content fetch is returned before any issue |
| SecurityGroupRule.ProtocolBlockPass | rules/rule_ibm_is_security_group_rule.go:120-137 | A nested block draws nothing and no error exactly when it is clean. |
| SecurityGroupRule.Passes | rules/rule_ibm_is_security_group_rule.go:79-166 | A resource draws no issue and no error exactly when every attribute of [group, direction, remote] is present; `direction` evaluates to one of {inbound, outbound}; every nested block satisfies `ProtocolBlockClean`; `ProtocolCount(b) == 1` |
| SecurityGroupRule.ProtocolBlockMessages | rules/rule_ibm_is_security_group_rule.go:171-248 | A nested block's validator reports only ICMP messages and messages naming the protocol. |
| SecurityGroupRule.IcmpMessages | rules/rule_ibm_is_security_group_rule.go:171-205 | The ICMP validator reports only the ICMP type and ICMP code range messages. |
| SecurityGroupRule.PortMessages | rules/rule_ibm_is_security_group_rule.go:208-248 | The port validator reports only messages formatted with the protocol name. |
| SecurityGroupRule.ProtocolLoopAvoids | rules/rule_ibm_is_security_group_rule.go:119-138 | No nested block's validator reports a protocol count message. |
| SecurityGroupRule.ProtocolCountReported | rules/rule_ibm_is_security_group_rule.go:140-166 | Once the resource is checked without error, it carries the "only one" issue exactly when two or more protocol kinds occur, the "at least one" issue exactly when none occurs, each at most once, and neither when exactly one kind occurs. |
| SecurityGroupRule.CountIssuesCounts | rules/rule_ibm_is_security_group_rule.go:140-166 | The two count tests report each message once, under its own condition. |
| SecurityGroupRule.AttributeMessages | rules/rule_ibm_is_security_group_rule.go:81-116 | The attribute checks report only "`<name>` attribute must be specified" and the direction message. |
| SecurityGroupRule.BeforeCountAvoids | rules/rule_ibm_is_security_group_rule.go:81-138 | Everything reported before the count tests avoids both count messages. |
| SecurityGroupRule.PortMaxReports | rules/rule_ibm_is_security_group_rule.go:226-248 | `port_max` is compared with the evaluated `port_min`, or with zero when `port_min` is absent; a value both out of range and below `port_min` draws two issues at `port_max`'s range. |
| SecurityGroupRule.IcmpErrorEnds | rules/rule_ibm_is_security_group_rule.go:119-137 | Unlike the network ACL rule, an ICMP `type` or `code` that fails to evaluate ends the check of the resource with that error. |
| SecurityGroupTarget.CheckResource | rules/rule_ibm_is_security_group_target.go:48-60 | The checks on one resource run in source order: the issues emitted and the error returned are those of `ResourceIssues`, an evaluation error ending the resource's check |
| SecurityGroupTarget.Check | rules/rule_ibm_is_security_group_target.go:36-63 | Over the `ibm_is_security_group_target` resources, in order, emits exactly the issues `ResourceIssues` gives each and returns the first evaluation error, checking no resource after it; a failed content fetch is returned before any issue |
| SecurityGroupTarget.Passes | rules/rule_ibm_is_security_group_target.go:48-60 | A resource draws no issue and no error exactly when every attribute of [security_group, target] is present |
| Share.CheckResource | rules/rule_ibm_is_share.go:52-146 | The checks on one resource run in source order: the issues emitted and the error returned are those of `ResourceIssues`, an evaluation error ending the resource's check |
| Share.Check | rules/rule_ibm_is_share.go:36-149 | Over the `ibm_is_share` resources, in order, emits exactly the issues `ResourceIssues` gives each and returns the first evaluation error, checking no resource after it; a failed content fetch is returned before any issue |
| Share.Passes | rules/rule_ibm_is_share.go:52-146 | A resource draws no issue and no error exactly when every attribute of [name, size, profile, zone] is present; `name` evaluates to 1 to 63 bytes; `size` evaluates into 10..16000; `profile` evaluates to one of {dp2, dp4, dp8}; `zone` evaluates to a string that passes `isValidZone` |
| ShareDeleteAccessorBinding.CheckResource | rules/rule_ibm_is_share_delete_accessor_binding.go:48-77 | The checks on one resource run in source order: the issues emitted and the error returned are those of `ResourceIssues`, an evaluation error ending the resource's check |
| ShareDeleteAccessorBinding.Check | rules/rule_ibm_is_share_delete_accessor_binding.go:36-80 | Over the `ibm_is_share_delete_accessor_binding` resources, in order, emits exactly the issues `ResourceIssues` gives each and returns the first evaluation error, checking no resource after it; a failed content fetch is returned before any issue |
| ShareDeleteAccessorBinding.Passes | rules/rule_ibm_is_share_delete_accessor_binding.go:48-77 | A resource draws no issue and no error exactly when every attribute of [share, accessor_binding] is present; `accessor_binding` evaluates to a string that is non-empty |
| ShareMountTarget.ValidatePrimaryIP | rules/rule_ibm_is_share_mount_target.go:160-179 | Emits exactly the issues of `PrimaryIpIssues`: `validatePrimaryIP`: a present `name` of a `primary_ip` block must not be empty. An evaluation error is returned at once. |
| ShareMountTarget.CheckPrimaryIps | rules/rule_ibm_is_share_mount_target.go:72-155 | Runs the nested-block check over every nested block in order, tracking whether a `primary_ip` block occurred; The `primary_ip` loop, then the test on whether such a block exists. An evaluation error is returned at once. |
| ShareMountTarget.PrimaryIpIssuesPasses | rules/rule_ibm_is_share_mount_target.go:72-155 | A nested `primary_ip` block draws nothing exactly when `name` evaluates to a string that is non-empty |
| ShareMountTarget.PrimaryIpsIssuesPasses | rules/rule_ibm_is_share_mount_target.go:72-155 | The loop over the nested blocks draws nothing exactly when every `primary_ip` block is clean and at least one exists |
| ShareMountTarget.NoPrimaryIpReported | rules/rule_ibm_is_share_mount_target.go:126-144 | Without any `primary_ip` block, the `primary_ip` loop draws exactly one issue, "primary_ip block must be specified in virtual_network_interface", at `b`'s range. |
| ShareMountTarget.CheckInterface | rules/rule_ibm_is_share_mount_target.go:113-145 | For one nested block, emits exactly the issues of `InterfaceIssues`: One nested block: a `virtual_network_interface` block needs `subnet` and a `primary_ip` block. An evaluation error is returned at once. |
| ShareMountTarget.CheckInterfaces | rules/rule_ibm_is_share_mount_target.go:111-154 | Runs the nested-block check over every nested block in order, tracking whether a `virtual_network_interface` block occurred; The `virtual_network_interface` loop, then the test on whether such a block exists. An evaluation error is returned at once. |
| ShareMountTarget.InterfaceIssuesPasses | rules/rule_ibm_is_share_mount_target.go:113-145 | A nested `virtual_network_interface` block draws nothing exactly when `subnet` is present; `PrimaryIpsIssuesClean` holds |
| ShareMountTarget.InterfacesIssuesPasses | rules/rule_ibm_is_share_mount_target.go:111-154 | The loop over the nested blocks draws nothing exactly when every `virtual_network_interface` block is clean and at least one exists |
| ShareMountTarget.NoVirtualNetworkInterfaceReported | rules/rule_ibm_is_share_mount_target.go:111-154 | Without any `virtual_network_interface` block, the `virtual_network_interface` loop draws exactly one issue, "virtual_network_interface block must be specified", at `b`'s range. |
| ShareMountTarget.VirtualNetworkInterfaceWithoutPrimaryIpReported | rules/rule_ibm_is_share_mount_target.go:111-154 | Each `virtual_network_interface` block without a `primary_ip` block draws "primary_ip block must be specified in virtual_network_interface" at its own range, unless some evaluation ended the loop with an error. |
| ShareMountTarget.CheckResource | rules/rule_ibm_is_share_mount_target.go:72-155 | The checks on one resource run in source order: the issues emitted and the error returned are those of `ResourceIssues`, an evaluation error ending the resource's check |
| ShareMountTarget.Check | rules/rule_ibm_is_share_mount_target.go:36-158 | Over the `ibm_is_share_mount_target` resources, in order, emits exactly the issues `ResourceIssues` gives each and returns the first evaluation error, checking no resource after it; a failed content fetch is returned before any issue |
| ShareMountTarget.Passes | rules/rule_ibm_is_share_mount_target.go:72-155 | A resource draws no issue and no error exactly when every attribute of [share, name] is present; `name` evaluates to 1 to 63 bytes; `InterfacesIssuesClean` holds |
| ShareReplicaOperations.CheckResource | rules/rule_ibm_is_share_replica_operations.go:48-125 | The checks on one resource run in source order: the issues emitted and the error returned are those of `ResourceIssues`, an evaluation error ending the resource's check |
| ShareReplicaOperations.Check | rules/rule_ibm_is_share_replica_operations.go:34-128 | Over the `ibm_is_share_replica_operations` resources, in order, emits exactly the issues `ResourceIssues` gives each and returns the first evaluation error, checking no resource after it; a failed content fetch is returned before any issue |
| ShareReplicaOperations.Passes | rules/rule_ibm_is_share_replica_operations.go:48-125 | A resource draws no issue and no error exactly when every attribute of [share_replica] is present; (whenever `split_share` is present: `split_share` evaluates); `fallback_policy` evaluates to one of {split, failover}; exactly one of `split_share` and `fallback_policy` is present; `timeout` evaluates to at least 0 |
| ShareSnapshot.CheckResource | rules/rule_ibm_is_share_snapshot.go:50-106 | The checks on one resource run in source order: the issues emitted and the error returned are those of `ResourceIssues`, an evaluation error ending the resource's check |
| ShareSnapshot.Check | rules/rule_ibm_is_share_snapshot.go:36-109 | Over the `ibm_is_share_snapshot` resources, in order, emits exactly the issues `ResourceIssues` gives each and returns the first evaluation error, checking no resource after it; a failed content fetch is returned before any issue |
| ShareSnapshot.Passes | rules/rule_ibm_is_share_snapshot.go:50-106 | A resource draws no issue and no error exactly when every attribute of [name, share] is present; `name` evaluates to 1 to 63 bytes; every element of `tags` satisfies `TagFits` |
| ShareSnapshot.TagsReportedOnce | rules/rule_ibm_is_share_snapshot.go:89-105 | Every over-long tag is reported once, at the `tags` expression. |
| Snapshot.ValidateTimeouts | rules/rule_ibm_is_snapshot.go:131-151 | Emits exactly the issues of `TimeoutsIssues`: `validateTimeouts`: a present `create` or `delete` of a `timeouts` block must be a duration. An evaluation error is returned at once. |
| Snapshot.CheckTimeoutBlocks | rules/rule_ibm_is_snapshot.go:119-125 | Runs the nested-block check over every nested block in order, tracking whether a `timeouts` block occurred; The `timeouts` loop. An evaluation error is returned at once. |
| Snapshot.TimeoutsIssuesPasses | rules/rule_ibm_is_snapshot.go:120-124 | A nested `timeouts` block draws nothing exactly when `create` evaluates to a string that passes `isValidTimeout`; `delete` evaluates to a string that passes `isValidTimeout` |
| Snapshot.TimeoutBlocksIssuesPasses | rules/rule_ibm_is_snapshot.go:119-125 | The loop over the nested blocks draws nothing exactly when every `timeouts` block is clean |
| Snapshot.CheckResource | rules/rule_ibm_is_snapshot.go:61-126 | The checks on one resource run in source order: the issues emitted and the error returned are those of `ResourceIssues`, an evaluation error ending the resource's check |
| Snapshot.Check | rules/rule_ibm_is_snapshot.go:36-129 | Over the `ibm_is_snapshot` resources, in order, emits exactly the issues `ResourceIssues` gives each and returns the first evaluation error, checking no resource after it; a failed content fetch is returned before any issue |
| Snapshot.Passes | rules/rule_ibm_is_snapshot.go:61-126 | A resource draws no issue and no error exactly when every attribute of [name, source_volume] is present; `name` evaluates to 1 to 63 bytes; every element of `clones` passes `isValidZone`; `TimeoutBlocksIssuesClean` holds |
| Snapshot.EachBadCloneNamed | rules/rule_ibm_is_snapshot.go:100-116 | Every bad zone in `clones` draws its own issue, naming it, in list order; as zones are only tested for emptiness, the zones named are the empty strings of the list. |
| SnapshotConsistencyGroup.CheckSnapshot | rules/rule_ibm_is_snapshot_consistency_group.go:101-115 | For one nested block, emits exactly the issues of `SnapshotIssues`: One nested block: a `snapshots` block needs `name` and `source_volume`. |
| SnapshotConsistencyGroup.CheckSnapshots | rules/rule_ibm_is_snapshot_consistency_group.go:99-124 | Runs the nested-block check over every nested block in order, tracking whether a `snapshots` block occurred; The `snapshots` loop, then the test on whether such a block exists. |
| SnapshotConsistencyGroup.SnapshotIssuesPasses | rules/rule_ibm_is_snapshot_consistency_group.go:101-115 | A nested `snapshots` block draws nothing exactly when every attribute of [name, source_volume] is present |
| SnapshotConsistencyGroup.SnapshotsIssuesPasses | rules/rule_ibm_is_snapshot_consistency_group.go:99-124 | The loop over the nested blocks draws nothing exactly when every `snapshots` block is clean and at least one exists |
| SnapshotConsistencyGroup.NoSnapshotsReported | rules/rule_ibm_is_snapshot_consistency_group.go:99-124 | Without any `snapshots` block, the `snapshots` loop draws exactly one issue, "at least one snapshots block must be specified", at `b`'s range. |
| SnapshotConsistencyGroup.CheckResource | rules/rule_ibm_is_snapshot_consistency_group.go:60-125 | The checks on one resource run in source order: the issues emitted and the error returned are those of `ResourceIssues`, an evaluation error ending the resource's check |
| SnapshotConsistencyGroup.Check | rules/rule_ibm_is_snapshot_consistency_group.go:36-128 | Over the `ibm_is_snapshot_consistency_group` resources, in order, emits exactly the issues `ResourceIssues` gives each and returns the first evaluation error, checking no resource after it; a failed content fetch is returned before any issue |
| SnapshotConsistencyGroup.Passes | rules/rule_ibm_is_snapshot_consistency_group.go:60-125 | A resource draws no issue and no error exactly when every attribute of [name] is present; `name` evaluates to 1 to 63 bytes; `SnapshotsIssuesClean` holds |
| SshKey.CheckResource | rules/rule_ibm_is_ssh_key.go:51-127 | The checks on one resource run in source order: the issues emitted and the error returned are those of `ResourceIssues`, an evaluation error ending the resource's check |
| SshKey.Check | rules/rule_ibm_is_ssh_key.go:37-130 | Over the `ibm_is_ssh_key` resources, in order, emits exactly the issues `ResourceIssues` gives each and returns the first evaluation error, checking no resource after it; a failed content fetch is returned before any issue |
| SshKey.Passes | rules/rule_ibm_is_ssh_key.go:51-127 | A resource draws no issue and no error exactly when every attribute of [name, public_key] is present; `name` evaluates to 1 to 63 bytes; `public_key` evaluates to a string that passes `isValidPublicKey`; `type` evaluates to one of {rsa, ed25519} |
| SshKey.BlankKeyReported | rules/rule_ibm_is_ssh_key.go:90-104 | A blank `public_key` is always reported, whatever white space it holds. |
| Subnet.CheckResource | rules/rule_ibm_is_subnet.go:55-170 | The checks on one resource run in source order: the issues emitted and the error returned are those of `ResourceIssues`, an evaluation error ending the resource's check |
| Subnet.Check | rules/rule_ibm_is_subnet.go:36-173 | Over the `ibm_is_subnet` resources, in order, emits exactly the issues `ResourceIssues` gives each and returns the first evaluation error, checking no resource after it; a failed content fetch is returned before any issue |
| Subnet.Passes | rules/rule_ibm_is_subnet.go:55-170 | A resource draws no issue and no error exactly when every attribute of [name, vpc, zone] is present; exactly one of `ipv4_cidr_block` and `total_ipv4_address_count` is present; `name` evaluates to 1 to 63 bytes; `ipv4_cidr_block` evaluates to a string that passes `isValidCIDR`; `total_ipv4_address_count` evaluates to an integer that is a power of two from 8 to 8192; `zone` evaluates to a string that passes `isValidZone` |
| SubnetNetworkAclAttachment.CheckResource | rules/rule_ibm_is_subnet_network_acl_attachment.go:48-60 | The checks on one resource run in source order: the issues emitted and the error returned are those of `ResourceIssues`, an evaluation error ending the resource's check |
| SubnetNetworkAclAttachment.Check | rules/rule_ibm_is_subnet_network_acl_attachment.go:36-63 | Over the `ibm_is_subnet_network_acl_attachment` resources, in order, emits exactly the issues `ResourceIssues` gives each and returns the first evaluation error, checking no resource after it; a failed content fetch is returned before any issue |
| SubnetNetworkAclAttachment.Passes | rules/rule_ibm_is_subnet_network_acl_attachment.go:48-60 | A resource draws no issue and no error exactly when every attribute of [subnet, network_acl] is present |
| SubnetPublicGatewayAttachment.CheckResource | rules/rule_ibm_is_subnet_public_gateway_attachment.go:48-60 | The checks on one resource run in source order: the issues emitted and the error returned are those of `ResourceIssues`, an evaluation error ending the resource's check |
| SubnetPublicGatewayAttachment.Check | rules/rule_ibm_is_subnet_public_gateway_attachment.go:36-63 | Over the `ibm_is_subnet_public_gateway_attachment` resources, in order, emits exactly the issues `ResourceIssues` gives each and returns the first evaluation error, checking no resource after it; a failed content fetch is returned before any issue |
| SubnetPublicGatewayAttachment.Passes | rules/rule_ibm_is_subnet_public_gateway_attachment.go:48-60 | A resource draws no issue and no error exactly when every attribute of [subnet, public_gateway] is present |
| SubnetReservedIp.CheckResource | rules/rule_ibm_is_subnet_reserved_ip.go:51-97 | The checks on one resource run in source order: the issues emitted and the error returned are those of `ResourceIssues`, an evaluation error ending the resource's check |
| SubnetReservedIp.Check | rules/rule_ibm_is_subnet_reserved_ip.go:36-100 | Over the `ibm_is_subnet_reserved_ip` resources, in order, emits exactly the issues `ResourceIssues` gives each and returns the first evaluation error, checking no resource after it; a failed content fetch is returned before any issue |
| SubnetReservedIp.Passes | rules/rule_ibm_is_subnet_reserved_ip.go:51-97 | A resource draws no issue and no error exactly when every attribute of [subnet] is present; `name` evaluates to a string that satisfies `FitsName`; `address` evaluates to an address `isValidIPv4` accepts |
| SubnetReservedIpPatch.CheckResource | rules/rule_ibm_is_subnet_reserved_ip_patch.go:50-79 | The checks on one resource run in source order: the issues emitted and the error returned are those of `ResourceIssues`, an evaluation error ending the resource's check |
| SubnetReservedIpPatch.Check | rules/rule_ibm_is_subnet_reserved_ip_patch.go:36-82 | Over the `ibm_is_subnet_reserved_ip_patch` resources, in order, emits exactly the issues `ResourceIssues` gives each and returns the first evaluation error, checking no resource after it; a failed content fetch is returned before any issue |
| SubnetReservedIpPatch.Passes | rules/rule_ibm_is_subnet_reserved_ip_patch.go:50-79 | A resource draws no issue and no error exactly when every attribute of [subnet, reserved_ip] is present; `name` evaluates to a string that satisfies `FitsName` |
| SubnetRoutingTableAttachment.CheckResource | rules/rule_ibm_is_subnet_routing_table_attachment.go:48-60 | The checks on one resource run in source order: the issues emitted and the error returned are those of `ResourceIssues`, an evaluation error ending the resource's check |
| SubnetRoutingTableAttachment.Check | rules/rule_ibm_is_subnet_routing_table_attachment.go:36-63 | Over the `ibm_is_subnet_routing_table_attachment` resources, in order, emits exactly the issues `ResourceIssues` gives each and returns the first evaluation error, checking no resource after it; a failed content fetch is returned before any issue |
| SubnetRoutingTableAttachment.Passes | rules/rule_ibm_is_subnet_routing_table_attachment.go:48-60 | A resource draws no issue and no error exactly when every attribute of [subnet, routing_table] is present |
| VirtualEndpointGateway.CheckTarget | rules/rule_ibm_is_virtual_endpoint_gateway.go:111-147 | For one nested block, emits exactly the issues of `TargetIssues`: One nested block: a `target` block needs `name` and `resource_type`, the latter from a fixed set. An evaluation error is returned at once. |
| VirtualEndpointGateway.CheckTargets | rules/rule_ibm_is_virtual_endpoint_gateway.go:109-156 | Runs the nested-block check over every nested block in order, tracking whether a `target` block occurred; The `target` loop, then the test on whether such a block exists. An evaluation error is returned at once. |
| VirtualEndpointGateway.TargetIssuesPasses | rules/rule_ibm_is_virtual_endpoint_gateway.go:111-147 | A nested `target` block draws nothing exactly when every attribute of [name, resource_type] is present; `resource_type` evaluates to one of {provider_cloud_service, provider_infrastructure_service} |
| VirtualEndpointGateway.TargetsIssuesPasses | rules/rule_ibm_is_virtual_endpoint_gateway.go:109-156 | The loop over the nested blocks draws nothing exactly when every `target` block is clean and at least one exists |
| VirtualEndpointGateway.NoTargetReported | rules/rule_ibm_is_virtual_endpoint_gateway.go:109-156 | Without any `target` block, the `target` loop draws exactly one issue, "target block must be specified", at `b`'s range. |
| VirtualEndpointGateway.CheckResource | rules/rule_ibm_is_virtual_endpoint_gateway.go:70-157 | The checks on one resource run in source order: the issues emitted and the error returned are those of `ResourceIssues`, an evaluation error ending the resource's check |
| VirtualEndpointGateway.Check | rules/rule_ibm_is_virtual_endpoint_gateway.go:36-160 | Over the `ibm_is_virtual_endpoint_gateway` resources, in order, emits exactly the issues `ResourceIssues` gives each and returns the first evaluation error, checking no resource after it; a failed content fetch is returned before any issue |
| VirtualEndpointGateway.Passes | rules/rule_ibm_is_virtual_endpoint_gateway.go:70-157 | A resource draws no issue and no error exactly when every attribute of [name, vpc] is present; `name` evaluates to 1 to 63 bytes; `TargetsIssuesClean` holds |
| VirtualEndpointGatewayIp.CheckResource | rules/rule_ibm_is_virtual_endpoint_gateway_ip.go:48-60 | The checks on one resource run in source order: the issues emitted and the error returned are those of `ResourceIssues`, an evaluation error ending the resource's check |
| VirtualEndpointGatewayIp.Check | rules/rule_ibm_is_virtual_endpoint_gateway_ip.go:36-63 | Over the `ibm_is_virtual_endpoint_gateway_ip` resources, in order, emits exactly the issues `ResourceIssues` gives each and returns the first evaluation error, checking no resource after it; a failed content fetch is returned before any issue |
| VirtualEndpointGatewayIp.Passes | rules/rule_ibm_is_virtual_endpoint_gateway_ip.go:48-60 | A resource draws no issue and no error exactly when every attribute of [gateway, reserved_ip] is present |
| VirtualNetworkInterface.CheckResource | rules/rule_ibm_is_virtual_network_interface.go:52-111 | The checks on one resource run in source order: the issues emitted and the error returned are those of `ResourceIssues`, an evaluation error ending the resource's check |
| VirtualNetworkInterface.Check | rules/rule_ibm_is_virtual_network_interface.go:36-114 | Over the `ibm_is_virtual_network_interface` resources, in order, emits exactly the issues `ResourceIssues` gives each and returns the first evaluation error, checking no resource after it; a failed content fetch is returned before any issue |
| VirtualNetworkInterface.Passes | rules/rule_ibm_is_virtual_network_interface.go:52-111 | A resource draws no issue and no error exactly when every attribute of [name, subnet] is present; `name` evaluates to 1 to 63 bytes; `protocol_state_filtering_mode` evaluates to one of {enabled, disabled} |
| VirtualNetworkInterfaceFloatingIp.CheckResource | rules/rule_ibm_is_virtual_network_interface_floating_ip.go:48-60 | The checks on one resource run in source order: the issues emitted and the error returned are those of `ResourceIssues`, an evaluation error ending the resource's check |
| VirtualNetworkInterfaceFloatingIp.Check | rules/rule_ibm_is_virtual_network_interface_floating_ip.go:36-63 | Over the `ibm_is_virtual_network_interface_floating_ip` resources, in order, emits exactly the issues `ResourceIssues` gives each and returns the first evaluation error, checking no resource after it; a failed content fetch is returned before any issue |
| VirtualNetworkInterfaceFloatingIp.Passes | rules/rule_ibm_is_virtual_network_interface_floating_ip.go:48-60 | A resource draws no issue and no error exactly when every attribute of [virtual_network_interface, floating_ip] is present |
| VirtualNetworkInterfaceIp.CheckResource | rules/rule_ibm_is_virtual_network_interface_ip.go:48-60 | The checks on one resource run in source order: the issues emitted and the error returned are those of `ResourceIssues`, an evaluation error ending the resource's check |
| VirtualNetworkInterfaceIp.Check | rules/rule_ibm_is_virtual_network_interface_ip.go:36-63 | Over the `ibm_is_virtual_network_interface_ip` resources, in order, emits exactly the issues `ResourceIssues` gives each and returns the first evaluation error, checking no resource after it; a failed content fetch is returned before any issue |
| VirtualNetworkInterfaceIp.Passes | rules/rule_ibm_is_virtual_network_interface_ip.go:48-60 | A resource draws no issue and no error exactly when every attribute of [reserved_ip, virtual_network_interface] is present |
| Volume.CheckResource | rules/rule_ibm_is_volume.go:53-176 | The checks on one resource run in source order: the issues emitted and the error returned are those of `ResourceIssues`, an evaluation error ending the resource's check |
| Volume.Check | rules/rule_ibm_is_volume.go:36-179 | Over the `ibm_is_volume` resources, in order, emits exactly the issues `ResourceIssues` gives each and returns the first evaluation error, checking no resource after it; a failed content fetch is returned before any issue |
| Volume.Passes | rules/rule_ibm_is_volume.go:53-176 | A resource draws no issue and no error exactly when every attribute of [name, profile, zone, capacity] is present; `name` evaluates to 1 to 63 bytes; `profile` evaluates to one of {general-purpose, custom, 5iops-tier, 10iops-tier} and, when it is `custom`, `iops` is present; `capacity` evaluates into 10..16000; `zone` evaluates to a string that passes `isValidZone`; `iops` evaluates into 100..48000 |
| Volume.CustomNeedsIops | rules/rule_ibm_is_volume.go:116-122 | A `custom` profile asks for `iops`; the tiered profiles never do. |
| Vpc.CheckResource | rules/rule_ibm_is_vpc.go:44-52 | The checks on one resource run in source order: the issues emitted and the error returned are those of `ResourceIssues`, an evaluation error ending the resource's check |
| Vpc.Check | rules/rule_ibm_is_vpc.go:33-55 | Over the `ibm_is_vpc` resources, in order, emits exactly the issues `ResourceIssues` gives each and returns the first evaluation error, checking no resource after it; a failed content fetch is returned before any issue |
| Vpc.Passes | rules/rule_ibm_is_vpc.go:44-52 | A resource draws no issue and no error exactly when every attribute of [name] is present |
| VpcAddressPrefix.CheckResource | rules/rule_ibm_is_vpc_address_prefix.go:51-122 | The checks on one resource run in source order: the issues emitted and the error returned are those of `ResourceIssues`, an evaluation error ending the resource's check |
| VpcAddressPrefix.Check | rules/rule_ibm_is_vpc_address_prefix.go:36-125 | Over the `ibm_is_vpc_address_prefix` resources, in order, emits exactly the issues `ResourceIssues` gives each and returns the first evaluation error, checking no resource after it; a failed content fetch is returned before any issue |
| VpcAddressPrefix.Passes | rules/rule_ibm_is_vpc_address_prefix.go:51-122 | A resource draws no issue and no error exactly when every attribute of [name, zone, vpc, cidr] is present; `name` evaluates to 1 to 63 bytes; `zone` evaluates to a string that passes `isValidZone`; `cidr` evaluates to a string that passes `isValidCIDR` |
| VpcDnsResolutionBinding.CheckVpc | rules/rule_ibm_is_vpc_dns_resolution_binding.go:75-84 | For one nested block, emits exactly the issues of `VpcIssues`: One nested block: a `vpc` block needs `id`. |
| VpcDnsResolutionBinding.CheckVpcs | rules/rule_ibm_is_vpc_dns_resolution_binding.go:74-85 | Runs the nested-block check over every nested block in order, tracking whether a `vpc` block occurred; The `vpc` loop, then the test on whether such a block exists. |
| VpcDnsResolutionBinding.VpcIssuesPasses | rules/rule_ibm_is_vpc_dns_resolution_binding.go:75-84 | A nested `vpc` block draws nothing exactly when `id` is present |
| VpcDnsResolutionBinding.VpcsIssuesPasses | rules/rule_ibm_is_vpc_dns_resolution_binding.go:74-85 | The loop over the nested blocks draws nothing exactly when every `vpc` block is clean and at least one exists |
| VpcDnsResolutionBinding.CheckResource | rules/rule_ibm_is_vpc_dns_resolution_binding.go:56-127 | The checks on one resource run in source order: the issues emitted and the error returned are those of `ResourceIssues`, an evaluation error ending the resource's check |
| VpcDnsResolutionBinding.Check | rules/rule_ibm_is_vpc_dns_resolution_binding.go:34-130 | Over the `ibm_is_vpc_dns_resolution_binding` resources, in order, emits exactly the issues `ResourceIssues` gives each and returns the first evaluation error, checking no resource after it; a failed content fetch is returned before any issue |
| VpcDnsResolutionBinding.Passes | rules/rule_ibm_is_vpc_dns_resolution_binding.go:56-127 | A resource draws no issue and no error exactly when every attribute of [name] is present; `VpcsIssuesClean` holds; `name` evaluates to 1 to 63 bytes |
| VpcRoutingTable.CheckResource | rules/rule_ibm_is_vpc_routing_table.go:52-113 | The checks on one resource run in source order: the issues emitted and the error returned are those of `ResourceIssues`, an evaluation error ending the resource's check |
| VpcRoutingTable.Check | rules/rule_ibm_is_vpc_routing_table.go:36-116 | Over the `ibm_is_vpc_routing_table` resources, in order, emits exactly the issues `ResourceIssues` gives each and returns the first evaluation error, checking no resource after it; a failed content fetch is returned before any issue |
| VpcRoutingTable.Passes | rules/rule_ibm_is_vpc_routing_table.go:52-113 | A resource draws no issue and no error exactly when every attribute of [vpc, name] is present; `name` evaluates to 1 to 63 bytes; every element of `accept_routes_from_resource_type` satisfies `IsRouteSource` |
| VpcRoutingTable.RouteSourcesReported | rules/rule_ibm_is_vpc_routing_table.go:52-113 | Each listed type other than `vpn_server` and `vpn_gateway` draws its own issue. |
| VpcRoutingTableRoute.CheckResource | rules/rule_ibm_is_vpc_routing_table_route.go:54-158 | The checks on one resource run in source order: the issues emitted and the error returned are those of `ResourceIssues`, an evaluation error ending the resource's check |
| VpcRoutingTableRoute.Check | rules/rule_ibm_is_vpc_routing_table_route.go:36-161 | Over the `ibm_is_vpc_routing_table_route` resources, in order, emits exactly the issues `ResourceIssues` gives each and returns the first evaluation error, checking no resource after it; a failed content fetch is returned before any issue |
| VpcRoutingTableRoute.Passes | rules/rule_ibm_is_vpc_routing_table_route.go:54-158 | A resource draws no issue and no error exactly when every attribute of [vpc, routing_table, destination, action, zone, name] is present; `name` evaluates to 1 to 63 bytes; `action` evaluates to one of {deliver, drop} and, when it is `deliver`, `next_hop` is present; `destination` evaluates to a string that passes `isValidCIDR`; `zone` evaluates to a string that passes `isValidZone` |
| VpcRoutingTableRoute.DeliverNeedsNextHop | rules/rule_ibm_is_vpc_routing_table_route.go:54-158 | A route that delivers names its next hop; a dropping route is never asked for one. |
| VpnGateway.CheckResource | rules/rule_ibm_is_vpn_gateway.go:51-110 | The checks on one resource run in source order: the issues emitted and the error returned are those of `ResourceIssues`, an evaluation error ending the resource's check |
| VpnGateway.Check | rules/rule_ibm_is_vpn_gateway.go:36-113 | Over the `ibm_is_vpn_gateway` resources, in order, emits exactly the issues `ResourceIssues` gives each and returns the first evaluation error, checking no resource after it; a failed content fetch is returned before any issue |
| VpnGateway.Passes | rules/rule_ibm_is_vpn_gateway.go:51-110 | A resource draws no issue and no error exactly when every attribute of [name, subnet] is present; `name` evaluates to 1 to 63 bytes; `mode` evaluates to one of {policy, route} |
| VpnGatewayConnection.ValidateDPD | rules/rule_ibm_is_vpn_gateway_connection.go:166-204 | Emits exactly the issues of `DpdIssues`: `validateDPD`, reached only when `dead_peer_detection` is present: the three fields are required of the resource, and `action` comes from a fixed set. An evaluation error is returned at once. |
| VpnGatewayConnection.DpdPasses | rules/rule_ibm_is_vpn_gateway_connection.go:166-204 | The helper draws nothing exactly when (whenever `dead_peer_detection` is present: every attribute of [interval, timeout, action] is present; `action` evaluates to one of {restart, clear, hold, none}) |
| VpnGatewayConnection.ValidatePeerBlock | rules/rule_ibm_is_vpn_gateway_connection.go:133-164 | Emits exactly the issues of `PeerIssues`: `validatePeerBlock`: a `peer` block needs `address` and `cidrs`, the address an IPv4 one. An evaluation error is returned at once. |
| VpnGatewayConnection.CheckPeers | rules/rule_ibm_is_vpn_gateway_connection.go:87-95 | Runs the nested-block check over every nested block in order, tracking whether a `peer` block occurred; The `peer` loop. An evaluation error is returned at once. |
| VpnGatewayConnection.PeerIssuesPasses | rules/rule_ibm_is_vpn_gateway_connection.go:89-94 | A nested `peer` block draws nothing exactly when every attribute of [address, cidrs] is present; `address` evaluates to an address `isValidIPv4` accepts |
| VpnGatewayConnection.PeersIssuesPasses | rules/rule_ibm_is_vpn_gateway_connection.go:87-95 | The loop over the nested blocks draws nothing exactly when every `peer` block is clean |
| VpnGatewayConnection.CheckResource | rules/rule_ibm_is_vpn_gateway_connection.go:73-128 | The checks on one resource run in source order: the issues emitted and the error returned are those of `ResourceIssues`, an evaluation error ending the resource's check |
| VpnGatewayConnection.Check | rules/rule_ibm_is_vpn_gateway_connection.go:36-131 | Over the `ibm_is_vpn_gateway_connection` resources, in order, emits exactly the issues `ResourceIssues` gives each and returns the first evaluation error, checking no resource after it; a failed content fetch is returned before any issue |
| VpnGatewayConnection.Passes | rules/rule_ibm_is_vpn_gateway_connection.go:73-128 | A resource draws no issue and no error exactly when every attribute of [name, vpn_gateway, preshared_key] is present; `PeersIssuesClean` holds; `name` evaluates to 1 to 63 bytes; `DpdClean` holds |
| VpnGatewayConnection.DpdOnlyWhenConfigured | rules/rule_ibm_is_vpn_gateway_connection.go:123-127 | Without `dead_peer_detection` neither the three fields nor `action` are looked at, so a bad `action` then goes unreported. |
| VpnGatewayConnection.DpdFieldsReported | rules/rule_ibm_is_vpn_gateway_connection.go:123-127 | With `dead_peer_detection`, each missing field is reported once, then a bad `action`. |
| VpnServer.ValidateClientAuthentication | rules/rule_ibm_is_vpn_server.go:208-255 | Emits exactly the issues of `AuthIssues`: `validateClientAuthentication`: `method` is required and must be known; `certificate` needs `client_ca_crn`. An evaluation error is returned at once. |
| VpnServer.CheckAuths | rules/rule_ibm_is_vpn_server.go:85-101 | Runs the nested-block check over every nested block in order, tracking whether a `client_authentication` block occurred; The `client_authentication` loop, then the test on whether such a block exists. An evaluation error is returned at once. |
| VpnServer.AuthIssuesPasses | rules/rule_ibm_is_vpn_server.go:87-92 | A nested `client_authentication` block draws nothing exactly when every attribute of [method] is present; `method` evaluates to one of {certificate, username} and, when it is `certificate`, `client_ca_crn` is present |
| VpnServer.AuthsIssuesPasses | rules/rule_ibm_is_vpn_server.go:85-101 | The loop over the nested blocks draws nothing exactly when every `client_authentication` block is clean and at least one exists |
| VpnServer.MissingAuthReportedOnce | rules/rule_ibm_is_vpn_server.go:85-101 | Without any `client_authentication` block, the `client_authentication` loop draws exactly one issue, "client_authentication block must be specified", at `b`'s range. |
| VpnServer.CheckResource | rules/rule_ibm_is_vpn_server.go:66-203 | The checks on one resource run in source order: the issues emitted and the error returned are those of `ResourceIssues`, an evaluation error ending the resource's check |
| VpnServer.Check | rules/rule_ibm_is_vpn_server.go:36-206 | Over the `ibm_is_vpn_server` resources, in order, emits exactly the issues `ResourceIssues` gives each and returns the first evaluation error, checking no resource after it; a failed content fetch is returned before any issue |
| VpnServer.Passes | rules/rule_ibm_is_vpn_server.go:66-203 | A resource draws no issue and no error exactly when every attribute of [name, certificate_crn, client_ip_pool, subnets] is present; `AuthsIssuesClean` holds; `name` evaluates to 1 to 63 bytes; `protocol` evaluates to one of {udp, tcp}; `port` evaluates into 1..65535; `client_ip_pool` evaluates to a string that passes `isValidCIDR`; every element of `client_dns_server_ips` is accepted by `isValidIPv4` |
| VpnServer.DnsReportedOnce | rules/rule_ibm_is_vpn_server.go:185-202 | The DNS server loop stops at the first address that is not IPv4: any number of bad addresses draws exactly one issue, at the list's range. |
| VpnServerClient.CheckResource | rules/rule_ibm_is_vpn_server_client.go:49-61 | The checks on one resource run in source order: the issues emitted and the error returned are those of `ResourceIssues`, an evaluation error ending the resource's check |
| VpnServerClient.Check | rules/rule_ibm_is_vpn_server_client.go:36-64 | Over the `ibm_is_vpn_server_client` resources, in order, emits exactly the issues `ResourceIssues` gives each and returns the first evaluation error, checking no resource after it; a failed content fetch is returned before any issue |
| VpnServerClient.Passes | rules/rule_ibm_is_vpn_server_client.go:49-61 | A resource draws no issue and no error exactly when every attribute of [vpn_server, vpn_client] is present |
| VpnServerRoute.CheckResource | rules/rule_ibm_is_vpn_server_route.go:50-126 | The checks on one resource run in source order: the issues emitted and the error returned are those of `ResourceIssues`, an evaluation error ending the resource's check |
| VpnServerRoute.Check | rules/rule_ibm_is_vpn_server_route.go:36-129 | Over the `ibm_is_vpn_server_route` resources, in order, emits exactly the issues `ResourceIssues` gives each and returns the first evaluation error, checking no resource after it; a failed content fetch is returned before any issue |
| VpnServerRoute.Passes | rules/rule_ibm_is_vpn_server_route.go:50-126 | A resource draws no issue and no error exactly when every attribute of [vpn_server, destination, action, name] is present; `action` evaluates to one of {translate, drop}; `destination` evaluates to a string that passes `isValidCIDR`; `name` evaluates to 1 to 63 bytes |

## Left out

- Resource content schemas: `GetResourceContent` is an oracle from resource type to blocks. The `hclext.BodySchema` each rule passes is not modelled. The blocks are taken to hold the attributes the host returned.
- HCL expression syntax and evaluation: `EvaluateExpr` is one oracle per Go target type (`Env`), and `net.ParseIP` is an oracle too. Source ranges are opaque values.
- Go `int` width: integers are unbounded. The host's conversion of an out-of-range number to `int` is part of the `Env.num` oracle; the rules only compare the converted values with constants.
- `float64`: `metric_value` is a real number. NaN and the infinities are not modelled.
- `fmt.Sprintf`: a message is its fixed text, or the text around one `%s` together with its argument.
- The `Name`, `Enabled`, `Severity` and `Link` methods of each rule are constants with nothing to prove.
- The plugin plumbing is not part of this model: `main.go`, `ibm/client.go`, `ibm/provider.go`, `ibm/ruleset.go`, `ibm/config.go` and `ibm/vpc.go`.
- The `logger.Debug` call in `EachStringSliceExprs` is not modelled.
- Validators.TrimSpace: treats only the six ASCII white-space bytes as space. `strings.TrimSpace` and `strings.Fields` also treat the UTF-8 encodings of U+0085, U+00A0 and the other Unicode spaces as space.
- Projector.EachStringSliceExprs: when a static list has fewer element expressions than evaluated values, `ibm/runner.go` line 67 indexes past the end of `exprs` and the Go program panics. A Dafny function cannot panic, so the model returns an `IndexOutOfRange` error, after the calls already made.
