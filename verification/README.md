# Guest network configuration, modelled in Dafny

This project models `lib/guest_config.rb` from the vagrant-multi-vm-env
repository. That module tells the provisioning layer how to set a static
address on a guest VM's `eth0`. Given the target IP, a network spec and the
name of the Vagrant box, `get_network_config` returns three things:

- the path of the interface configuration file;
- the file's content, with the network parameters substituted into an
  OS-specific template;
- the shell command that applies the file.

The model has three parts, each with the proofs about it:

- **Resolver** (`OsResolver`). Maps a box name to one of three OS families
  (`redhat7`, `redhat8`, `ubuntu`). It tests six patterns in order and takes
  the first one that occurs in the name.
- **Registry** (`Registry`). Holds one entry per family: the path, the
  template text and the apply command. The RHEL 8 entry is a copy of the
  RHEL 7 entry with a different command.
- **Facade** (`GuestConfig`). Binds the parameters to the template names
  and renders the template with Ruby's `format`.

Supporting modules:

- `Results` holds `Option` and `Result`.
- `Text` holds substring occurrence, `String#include?`, first index of a
  character, and line joining.
- `Decimal` holds the decimal text of an integer and its round trip.
- `RubyFormat` models `Kernel#format` restricted to `%<name>s` and
  `%<name>d`.
- `Heredocs` models a squiggly heredoc as a list of template lines, each
  ended by a newline.
- `Scenarios` holds worked examples with concrete boxes and parameters.

Each file is one module: `results.dfy`, `text.dfy`, `decimal.dfy`,
`format.dfy`, `heredoc.dfy`, `os_resolver.dfy`, `registry.dfy`,
`guest_config.dfy` and `scenarios.dfy`.

The registry stores the heredoc text verbatim. `<<~'DOC'` strips the common
four-space indent, does not interpolate, and ends every line with a
newline. Lines that contain references are written as concatenations split
at each `%<...>`; the text is unchanged. Both DNS lines of the ifcfg file
carry the label `DNS1`, as the source writes them.

`Format` is a single left-to-right pass over the format string:

- It copies ordinary characters.
- At a `%` it reads `%<name>`, then looks `name` up, as Ruby does. Only
  then does it read the conversion `s` or `d`. It inserts the value and
  continues after the directive.
- It stops at the first directive it cannot read or resolve.

`FormatShow` connects `Format` to an independent segment-wise renderer,
`Render`. Together with the per-line template lemmas, this gives the
facade's contract: the content equals the expected file written out line by
line (`GuestConfig.Expected`).

Two points about failures:

- In the source, a box that matches no pattern makes `_get_os_symbol`
  call `nil.to_sym`, which raises `NoMethodError`. The model returns the
  typed failure `UnrecognizedBox(box)` at that point, so the facade fails
  there and nowhere later.
- Looking up a tag the registry lacks cannot happen: every tag the resolver
  produces is a registry key (`Registry.Network`). The model therefore
  has no separate error for it.

## Model

| member | source | states |
|---|---|---|
| OsResolver.RulesShape | lib/guest_config.rb:59-69 | `Rules` holds the six patterns in the hash's insertion order. Every family is selected by some pattern, and only the three families are. No pattern is empty, and no two are equal, as keys of a hash. |
| OsResolver.FirstMatch | lib/guest_config.rb:70 | Returns the index of a rule whose pattern occurs in the box, with no earlier rule occurring. Returns nothing exactly when no pattern occurs. |
| OsResolver.Resolve | lib/guest_config.rb:58-71 | Fails exactly when none of the six patterns occurs in the box, and the error names the box. Otherwise it returns the family of the first occurring pattern, in the hash's insertion order. |
| OsResolver.EarlierRuleWins | lib/guest_config.rb:59-70 | Once a pattern occurs, resolution succeeds with the family of that rule or of an earlier one, never a later one. |
| OsResolver.CentosBeforeRocky | lib/guest_config.rb:61-70 | A box containing both "centos" and "rocky8", but not "ubuntu", resolves to the RHEL 7 family: the earlier pattern wins. |
| OsResolver.FirstMatchIs | lib/guest_config.rb:70 | If rule i occurs and no earlier rule does, `find` stops at rule i. |
| OsResolver.ResolvesTo | lib/guest_config.rb:70-71 | If rule i is the first rule that occurs, the box resolves to rule i's family. |
| OsResolver.ResolveCentos | lib/guest_config.rb:63 | "centos/7-x86_64" resolves to the RHEL 7 family. |
| OsResolver.ResolveRocky | lib/guest_config.rb:68 | "generic/rocky8" resolves to the RHEL 8 family. |
| OsResolver.ResolveUbuntu | lib/guest_config.rb:61 | "bento/ubuntu-20.04" resolves to the Ubuntu family. |
| OsResolver.ResolveDebian | lib/guest_config.rb:70-71 | "debian/bullseye64" matches no pattern, so resolution fails with UnrecognizedBox for that box. |
| Text.Includes | lib/guest_config.rb:70 | The executable left-to-right search that stands for `String#include?` is true exactly when the pattern occurs as a contiguous substring. |
| Decimal.FromInt | lib/guest_config.rb:31 | The text `%d` gives an integer: a leading '-' exactly when the integer is negative, then only digits. |
| Decimal.IntRoundTrip | lib/guest_config.rb:31 | The decimal text `%d` produces for any integer is canonical: optional '-', no leading zeros. Reading it back gives the integer. |
| Decimal.FromIntInjective | lib/guest_config.rb:31 | Different integers render as different decimal texts. |
| RubyFormat.ReadName | lib/guest_config.rb:87 | Reads the name between `%<` and the first '>'. Fails with UnsupportedDirective exactly when `%` is not followed by `<`, and with UnterminatedName exactly when no '>' follows. A read name holds no '>', and its printed form is a prefix of the text. |
| RubyFormat.ReadDirective | lib/guest_config.rb:87 | A successfully read directive is a well-formed reference, and its printed form is a prefix of the text it was read from. |
| RubyFormat.ReadShow | lib/guest_config.rb:87 | A printed `%<name>s` or `%<name>d` is read back as the same reference, whatever text follows it. |
| RubyFormat.RenderSegment | lib/guest_config.rb:87 | A reference fails exactly when its name is unbound (MissingKey) or when `%d` meets text (NotAnInteger). Otherwise `%s` inserts text unchanged, and an integer becomes canonical decimal text that reads back as the integer. |
| RubyFormat.Format | lib/guest_config.rb:87 | A format string without '%' comes back unchanged. |
| RubyFormat.Render | lib/guest_config.rb:87 | Rendering succeeds exactly when every segment renders. On failure it reports the error of the first segment that fails. |
| RubyFormat.KeyErrorFirst | lib/guest_config.rb:87 | An unbound name fails with MissingKey whatever follows its '>': nothing, an unsupported conversion or `s`/`d`. Ruby likewise raises KeyError before it reads the conversion. |
| RubyFormat.FormatShow | lib/guest_config.rb:87 | For any well-formed template and any values, formatting the template's text gives exactly the segment-wise rendering: the same text or the same error. |
| RubyFormat.FormatShowThen | lib/guest_config.rb:87 | Formatting a template's text followed by more text renders the template, then formats the rest; the first failure wins. |
| RubyFormat.RenderAppend | lib/guest_config.rb:87 | Rendering a concatenation of templates concatenates their renderings; the first failure wins. |
| Heredocs.ShowHeredoc | lib/guest_config.rb:21-33 | The text of a heredoc of template lines is its lines' texts, each followed by a newline. |
| Heredocs.RenderLines | lib/guest_config.rb:87 | Rendering lines succeeds exactly when every line renders, and the i-th result is the i-th line's rendering. |
| Heredocs.FormatHeredoc | lib/guest_config.rb:87 | Formatting the text of a well-formed heredoc gives its rendered lines joined with newlines, or the first line's error. |
| Heredocs.RenderLinesAre | lib/guest_config.rb:87 | Lines that each render to an expected line render together to exactly the expected lines. |
| Registry.Build | lib/guest_config.rb:17-54 | The registry has exactly the keys redhat7, redhat8 and ubuntu. The redhat7 and ubuntu entries are the given ones. The redhat8 entry has redhat7's file and its own command, and building it leaves redhat7 as given. |
| Registry.Network | lib/guest_config.rb:17-54 | `@network` has an entry for every family, so looking up a resolved tag never misses. RHEL 8 writes the same file as RHEL 7, path and content, with a different apply command. |
| Registry.RedhatTemplateText | lib/guest_config.rb:21-33 | The ifcfg template reads back as the eleven heredoc lines, verbatim. |
| Registry.UbuntuTemplateText | lib/guest_config.rb:43-53 | The netplan template reads back as the nine heredoc lines, verbatim. |
| Registry.RedhatTemplateWellFormed | lib/guest_config.rb:21-33 | Every ifcfg line is plain text and references with readable names. |
| Registry.UbuntuTemplateWellFormed | lib/guest_config.rb:43-53 | Every netplan line is plain text and references with readable names. |
| Registry.EntryTemplate | lib/guest_config.rb:19-54 | Every family has an entry, and its content is the text of a well-formed heredoc template. |
| GuestConfig.GetNetworkConfig | lib/guest_config.rb:74-90 | Fails exactly when the box is unrecognized, with the resolver's error. Otherwise it returns the family's path and apply command verbatim and the template rendered with ip←target_ip, prefix_length←vnic.prefix_length, gateway_ip←vnic.ip and dns1/dns2←dns. |
| GuestConfig.TemplateValues | lib/guest_config.rb:77-83 | Binds exactly the five names the templates use. Only `prefix_length` is an integer; ip, gateway_ip, dns1 and dns2 are text. |
| GuestConfig.RenderEntry | lib/guest_config.rb:77-87 | Formatting any family's content with the bound values succeeds and yields the expected file. |
| GuestConfig.RedhatRenderLines | lib/guest_config.rb:21-33 | The ifcfg template renders line by line to the expected lines, with the values in place. |
| GuestConfig.UbuntuRenderLines | lib/guest_config.rb:43-53 | The netplan template renders line by line to the expected lines: address in CIDR form, gateway, and both nameservers. |
| Scenarios.ResolveRhel8 | lib/guest_config.rb:67 | "generic/rhel8" resolves to the RHEL 8 family. |
| Scenarios.Rhel8Scenario | lib/guest_config.rb:74-90 | Example inputs: target 10.0.0.5, gateway 10.0.0.1/24, DNS 8.8.8.8 and 8.8.4.4. For an rhel8 box the result is the ifcfg path, the exact eleven lines (IPADDR=10.0.0.5, PREFIX=24, GATEWAY=10.0.0.1, DNS1=8.8.8.8, DNS1=8.8.4.4) and the NetworkManager command. |
| Scenarios.UbuntuScenario | lib/guest_config.rb:74-90 | Same inputs, Ubuntu box: the netplan path, the exact nine lines (`addresses: [10.0.0.5/24]`, `gateway4: 10.0.0.1`, `addresses: [8.8.8.8, 8.8.4.4]`) and `sudo netplan apply &`. |

## Left out

- `DynamicHash` and its auto-vivifying default block are left out: the registry is an ordinary map built once from values.
- `DynamicHash.deep_copy` is left out. It round-trips a hash through JSON to copy it; datatype values are already independent, so the copy is a plain value.
- Registry state is left out. The module-level `@network` becomes the constant `Registry.Network()`, and `module_function` plays no role.
- RubyFormat.Format: only `%<name>s` and `%<name>d` are modelled. Other directives, `%%`, flags, widths and precision all yield `UnsupportedDirective`. For a bound name, Ruby would format them or raise `ArgumentError` for malformed ones. A trailing `%<name>` with no conversion gives `UnterminatedName`, where Ruby raises `ArgumentError`. The error kinds are not Ruby's exception classes. The registry templates use none of these forms.
- RubyFormat.RenderSegment: `%<name>d` applied to text fails with `NotAnInteger`. Ruby would first try `Integer()` on it. Values are typed: four strings and one integer.
- Ruby coercions such as `nil.to_s` are left out, because the network spec is a record whose fields are always present.
- Commands are modelled as text only. Their meaning (systemd, NetworkManager, netplan) and running them are outside the model; so are writing the file and detecting the guest OS.
- Idempotence of `get_network_config` has no separate lemma: every operation is a pure function, so equal inputs give equal outputs.
- The netplan and ifcfg formats are not validated, and the values are not escaped; the source does neither.
