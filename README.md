# pve-manager console core, modelled in Dafny

This project models the logic of the Proxmox VE web console (pve-manager's
ExtJS front end) that lies underneath its widgets and HTTP calls, and proves
properties of that model. Covered:

- the resource grid's incremental synchronisation with the resource store:
  gather the selected subtree, remove vanished rows in one batch, patch the
  changed fields of surviving rows in place, add new rows in one batch, and
  re-sort by type;
- the resource store's derived fields and column table;
- disk-slot allocation: controller usage counts, the controller order, the
  first free device id under per-bus limits, and the OS defaults table it
  reads;
- the form value codecs (`onGetValues` and the load transforms) of the
  storage, DNS, IP config, hotplug, mount point, LXC feature, SSH key,
  cloud-init, HA resource, processor, ACL and OpenVZ wizard editors;
- the input validators (the `VTypes`);
- the enable and visibility rules of the LXC config, resources and options
  grids, the cloud-init grid, the destroy window, the ACL, HA and task
  views, the storage content view and the workspace.

Each JavaScript value is a `Js.Value` (undefined, null, a string, an integer,
a boolean or an array). An object is a `map<string, Value>`. Truthiness,
`==`, `===` and the string conversions follow ECMAScript for these values.
Functions the core calls but does not define (`PVE.Parser.*`, most of
`PVE.Utils.*`, the IP regular expressions, `htmlEncode`, the URI codecs) are
parameters of the members that use them.

Code that changes state in place is modelled by classes with `modifies`
clauses and loops with invariants. Each such class or loop is proved
against a specification function. Pure transforms are modelled by functions
and lemmas.

## Model

| member | source | states |
|---|---|---|
| ResourceGrid.TextFilterMatch | www/manager/grid/ResourceGrid.js:44-57 | the loop over name, storage, node, type and text finds a match exactly when some defined field, lower-cased, contains the search text |
| ResourceGrid.GatherForest | www/manager/grid/ResourceGrid.js:67-89 | the walk keeps nodeidx free of repetitions and inside the resource store, and never drops an id already recorded |
| ResourceGrid.Gathered | www/manager/grid/ResourceGrid.js:67-90 | nodeidx of the selected node has no repeated id, and every id in it is in the resource store |
| ResourceGrid.GatherForestIds | www/manager/grid/ResourceGrid.js:68-89 | the ids the walk records are exactly those of the subtree's nodes that are in the resource store and pass the view and text filters |
| ResourceGrid.SelectedIdsOfSelection | www/manager/grid/ResourceGrid.js:67-90 | nodeidx of a selection holds exactly the filtered ids of its descendants |
| ResourceGrid.FilterIn | www/manager/grid/ResourceGrid.js:93-100 | the ids kept by the removal walk are those of the store that are in nodeidx, without repetitions |
| ResourceGrid.FilterOut | www/manager/grid/ResourceGrid.js:93-100 | rmlist holds exactly the store ids missing from nodeidx, without repetitions |
| ResourceGrid.Added | www/manager/grid/ResourceGrid.js:106-123 | the records added are keyed by exactly the ids of addlist |
| ResourceGrid.NothingVanished | www/manager/grid/ResourceGrid.js:93-104 | with an empty rmlist the removal pass keeps every record |
| ResourceGrid.KeptAndAdded | www/manager/grid/ResourceGrid.js:93-147 | the surviving ids and the added ids are disjoint and together are the keys of the new records |
| ResourceGrid.UpdateKeyed | www/manager/grid/ResourceGrid.js:93-149 | after a pass the store's ids are distinct and are exactly the keys of its records |
| ResourceGrid.ResourceGrid.constructor | www/manager/grid/ResourceGrid.js:31-42 | the grid starts with an empty store, no events, an empty search text and the resource store's field names |
| ResourceGrid.ResourceGrid.OnSearchKeyup | www/manager/grid/ResourceGrid.js:181-185 | the keyup handler stores the lower-cased text and changes nothing else |
| ResourceGrid.ResourceGrid.VisitChild | www/manager/grid/ResourceGrid.js:79-86 | one child is recorded as the specification's visit step records it |
| ResourceGrid.ResourceGrid.GatherChildNodes | www/manager/grid/ResourceGrid.js:68-89 | the recursive walk computes the specification's nodeidx |
| ResourceGrid.ResourceGrid.SplitVanished | www/manager/grid/ResourceGrid.js:93-100 | the store walk splits the ids into rmlist and the kept ids, both in store order |
| ResourceGrid.ResourceGrid.PatchRecord | www/manager/grid/ResourceGrid.js:124-141 | the field loop sets the differing fields and commits only when it set one |
| ResourceGrid.ResourceGrid.MergeItems | www/manager/grid/ResourceGrid.js:106-143 | the loop over nodeidx patches the surviving records and collects addlist |
| ResourceGrid.ResourceGrid.SortByType | www/manager/grid/ResourceGrid.js:31-149 | the store's ids come out sorted by type ascending (the one sorter, lines 33-38, applied at line 149) and are a permutation of the ids it was given |
| ResourceGrid.ResourceGrid.Refresh | www/manager/grid/ResourceGrid.js:92-149 | removal, patch, addition and sort compute the specification's order, records and operations, and keep ids and records in step |
| ResourceGrid.ResourceGrid.Pass | www/manager/grid/ResourceGrid.js:59-149 | a pass from the gathered nodeidx gives the specification's order, records and operations, with ids distinct and matching the records |
| ResourceGrid.ResourceGrid.UpdateGrid | www/manager/grid/ResourceGrid.js:59-156 | updateGrid brings the store to the specification's state, logs its operations and fires exactly one datachanged event |
| ResourceGridProps.TextMatchesEmpty | www/manager/grid/ResourceGrid.js:44-83 | the empty search text matches a record exactly when one of its text fields is set |
| ResourceGridProps.PatchDataFrame | www/manager/grid/ResourceGrid.js:129-137 | a field outside the compared list, and id, is never written |
| ResourceGridProps.PatchDataSynced | www/manager/grid/ResourceGrid.js:129-137 | after the patch every compared field is loosely equal to the resource record's |
| ResourceGridProps.UnchangedRecord | www/manager/grid/ResourceGrid.js:125-141 | a record whose compared fields all agree is neither edited nor committed |
| ResourceGridProps.FieldOpsExact | www/manager/grid/ResourceGrid.js:129-137 | the fields set are exactly the compared fields that differ, each set to the resource record's value |
| ResourceGridProps.NewRowsRecords | www/manager/grid/ResourceGrid.js:106-147 | the new records are keyed by nodeidx; a survivor is its patched record, a new id the resource record |
| ResourceGridProps.UpdateShowsSelection | www/manager/grid/ResourceGrid.js:59-149 | after a pass the store holds exactly the filtered descendants of the selection, without repetitions |
| ResourceGridProps.UpdateSortedByType | www/manager/grid/ResourceGrid.js:31-149 | after a pass the store is sorted by type, ascending |
| ResourceGridProps.FieldOpsAreSets | www/manager/grid/ResourceGrid.js:129-137 | the field loop only sets fields of its own record |
| ResourceGridProps.MergeOpsArePatches | www/manager/grid/ResourceGrid.js:106-143 | the pass over nodeidx neither removes nor adds |
| ResourceGridProps.UpdateOpsPhases | www/manager/grid/ResourceGrid.js:92-149 | a pass removes, then patches, then adds, then sorts, and ends with the sort |
| ResourceGridProps.UpdateOpsParts | www/manager/grid/ResourceGrid.js:102-147 | there is at most one remove and one add call, each with a non-empty list, made exactly when the list is not empty |
| ResourceGridProps.UpdateRemovesVanished | www/manager/grid/ResourceGrid.js:93-104 | the one remove call removes exactly the vanished ids, and happens exactly when some id vanished |
| ResourceGridProps.UpdateAddsNew | www/manager/grid/ResourceGrid.js:106-147 | the one add call adds exactly the new ids, and happens exactly when there are new ids |
| ResourceGridProps.MergeOpsWrites | www/manager/grid/ResourceGrid.js:106-143 | the fields set are exactly the differing compared fields of surviving records; a commit follows exactly the records with a set |
| ResourceGridProps.FieldOpsNonEmpty | www/manager/grid/ResourceGrid.js:125-141 | a record is edited exactly when one of its compared fields differs |
| ResourceGridProps.UpdateWritesOnlyChanges | www/manager/grid/ResourceGrid.js:106-143 | a pass sets exactly the differing fields of surviving records and commits exactly the records that had a difference |
| ResourceGridProps.NewRowsInStep | www/manager/grid/ResourceGrid.js:106-147 | after a pass every record agrees with its resource record on the compared fields |
| ResourceGridProps.MergeOpsInStep | www/manager/grid/ResourceGrid.js:124-141 | records already in step are not written |
| ResourceGridProps.SettledRows | www/manager/grid/ResourceGrid.js:93-147 | a store that holds exactly the selection, in step, adds nothing and patches nothing |
| ResourceGridProps.SettledPass | www/manager/grid/ResourceGrid.js:93-149 | on a sorted, in-step store that holds exactly the selection a pass only re-sorts |
| ResourceGridProps.UpdateIdempotent | www/manager/grid/ResourceGrid.js:59-149 | a second pass with an unchanged resource store and filters removes, adds and sets nothing |
| ResourceStore.BuildFields | www/manager6/data/ResourceStore.js:205-215 | the field list and fieldNames have one entry per kept default, in order and with the same names, and only text and running keep a convert function |
| ResourceStore.KeptNamesMember | www/manager6/data/ResourceStore.js:207-215 | a name is in fieldNames exactly when its default has no convert function or is text or running |
| ResourceStore.KeptNamesAllWhenKept | www/manager6/data/ResourceStore.js:207-215 | when every default is kept, fieldNames lists all of them in order |
| ResourceStore.FieldNamesAreAllDefaults | www/manager6/data/ResourceStore.js:19-215 | the resource store's fieldNames are all 21 defaults, type and id first |
| ResourceStore.DefaultColumns | www/manager6/data/ResourceStore.js:235-242 | defaultColums gives one column per default, in order, with the default's name as dataIndex |
| ResourceStore.IsNumeric | www/manager6/data/ResourceStore.js:43-43 | Ext.isNumeric: a number, or a text that is not blank after trimming and converts to a number |
| ResourceStore.Running | www/manager6/data/ResourceStore.js:40-47 | only a guest or a node can be online |
| ResourceStore.StorageAndPoolOffline | www/manager6/data/ResourceStore.js:40-47 | a storage or pool record is never online |
| ResourceStore.NoUptimeOffline | www/manager6/data/ResourceStore.js:40-47 | a guest or node without an uptime (undefined or null) is not online |
| ResourceStore.UptimeOnline | www/manager6/data/ResourceStore.js:40-47 | a guest or node whose uptime is n, as a number or as decimal text, is online exactly when n > 0 |
| ResourceStore.NumericOfNatString | www/manager6/data/ResourceStore.js:43-43 | Ext.isNumeric accepts the decimal text of a number, and `> 0` compares that number |
| ResourceStore.Text | www/manager6/data/ResourceStore.js:54-77 | a set value is kept; otherwise a node reads as its node, a pool as its pool, a storage as "storage (node)", a guest as text starting with its vmid, anything else as its id |
| ResourceStore.TextOfGuest | www/manager6/data/ResourceStore.js:68-72 | a guest is described as its id, followed by its name in parentheses when it has one |
| ResourceStore.FindExact | www/manager6/data/ResourceStore.js:8 | findExact gives an index whose field is strictly equal to the value, or -1 when there is none |
| ResourceStore.FindVMID | www/manager6/data/ResourceStore.js:5-9 | findVMID holds exactly when the id parses as a decimal integer and some record has that vmid |
| ResourceStore.FindVMIDOfNumber | www/manager6/data/ResourceStore.js:5-9 | the id written out in decimal is found exactly when some record has it as its vmid |
| Sorting.Sort | www/manager/grid/ResourceGrid.js:31-149 | sorting rearranges the store: the result is a permutation of the input |
| Sorting.InsertSorted | www/manager/grid/ResourceGrid.js:31-149 | inserting into a sorted store keeps it sorted |
| Sorting.SortSorted | www/manager/grid/ResourceGrid.js:31-149 | the sort's result is sorted by its key |
| Sorting.SortOfSorted | www/manager/grid/ResourceGrid.js:31-149 | sorting a store that is already sorted leaves it as it is |
| Sorting.StrLeTotal | www/manager/grid/ResourceGrid.js:31-38 | any two strings are ordered one way or the other by character code |
| Sorting.StrLeTrans | www/manager/grid/ResourceGrid.js:31-38 | the string order is transitive |
| ControllerSelector.Counts | www/manager6/form/ControllerSelector.js:23-40 | the usage counts have exactly the controllers of maxIds as keys |
| ControllerSelector.CountsNone | www/manager6/form/ControllerSelector.js:23-30 | before any disk is counted every controller is at 0 |
| ControllerSelector.CountsStep | www/manager6/form/ControllerSelector.js:32-40 | counting one more config key adds one to its controller exactly when it matches a bus and is not a CD-ROM |
| ControllerSelector.UsageMap | www/manager6/form/ControllerSelector.js:23-40 | each controller's count is the number of its non-CD-ROM disks in the config |
| ControllerSelector.CountUsage | www/manager6/form/ControllerSelector.js:23-40 | the counting loops compute the usage map |
| ControllerSelector.CompareIsUsageOrder | www/manager6/form/ControllerSelector.js:42-53 | with the defaults' missing busPriority the comparator orders by usage, descending, ties equal |
| ControllerSelector.SortByPreviousUsage | www/manager6/form/ControllerSelector.js:20-56 | sortByPreviousUsage sorts the list by the usage map |
| ControllerSelector.SortedByUsage | www/manager6/form/ControllerSelector.js:20-56 | the sorted list is a permutation of the list, most used controller first |
| ControllerSelector.Candidates | www/manager6/form/ControllerSelector.js:77-82 | the controllers tried are those of the list, without virtio when VirtIO is barred and without scsi when SCSI is |
| ControllerSelector.FirstFree | www/manager6/form/ControllerSelector.js:84-90 | the id found is the first free one from i up to the maximum; none means all are taken |
| ControllerSelector.Pick | www/manager6/form/ControllerSelector.js:77-91 | the slot picked is the first free id of the first controller with one; none means every controller is full |
| ControllerSelector.ScanIsPick | www/manager6/form/ControllerSelector.js:77-91 | the scan ends on the picked slot, or on the last controller tried with the id unchanged when all are full |
| ControllerSelector.ScanOrder | www/manager6/form/ControllerSelector.js:62-75 | the controllers scanned are all known to maxIds |
| ControllerSelector.ScanOutcome | www/manager6/form/ControllerSelector.js:77-91 | the scan ends on a tried controller with a free id whose lower ids are taken, or every tried controller is full |
| ControllerSelector.AllowedScanOutcome | www/manager6/form/ControllerSelector.js:77-91 | the slot chosen is free and on an allowed controller, or every allowed controller is full |
| ControllerSelector.SelectedIsFree | www/manager6/form/ControllerSelector.js:58-94 | with autoSelect the slot is ide2 for a CD-ROM when ide2 is free, else a free slot on an allowed controller, or all are full |
| ControllerSelector.ScanEndsOnCandidate | www/manager6/form/ControllerSelector.js:77-91 | the controller field ends on one of the controllers tried |
| ControllerSelector.UsageChoiceAllowed | www/manager6/form/ControllerSelector.js:58-91 | a disk chosen by usage is on a known controller that is not barred |
| ControllerSelector.DeviceIdError | www/manager6/form/ControllerSelector.js:131-143 | the device id is refused, as already in use, exactly when controller and id name a config key |
| ControllerSelector.ScanSlots | www/manager6/form/ControllerSelector.js:77-91 | the loops over controllers and ids compute the specification's scan |
| ControllerSelector.FreeSlot | www/manager6/form/ControllerSelector.js:83-89 | the for loop over ids 0 to the maximum finds the first id whose key the configuration lacks, or none |
| ControllerSelector.Choose | www/manager6/form/ControllerSelector.js:58-92 | setVMConfig's choice is the specification's selected slot |
| ControllerSelector.Selector.constructor | www/manager6/form/ControllerSelector.js:96-146 | the selector starts with an empty config, the generic bus type and device id 0 |
| ControllerSelector.Selector.OnControllerChange | www/manager6/form/ControllerSelector.js:115-122 | a known controller sets the device id's maximum to its maxIds entry |
| ControllerSelector.Selector.SetVMConfig | www/manager6/form/ControllerSelector.js:58-94 | the config is copied and the fields set to the selected slot |
| ControllerSelector.Selector.Validate | www/manager6/form/ControllerSelector.js:131-143 | the validator refuses exactly an id in use on the current controller |
| ControllerSelector.SelectedInMaxIds | www/manager6/form/ControllerSelector.js:58-91 | the selected controller is always one maxIds knows |
| OSDefaults.WithOS | www/manager6/qemu/OSDefaults.js:26-34 | addOS throws without the parent; otherwise the new entry is the parent's settings overridden by its own, and no other entry changes |
| OSDefaults.AddL26 | www/manager6/qemu/OSDefaults.js:43-48 | l26 inherits from generic with the virtio bus and network card |
| OSDefaults.AddW2k | www/manager6/qemu/OSDefaults.js:51-55 | w2k inherits from generic with the rtl8139 network card |
| OSDefaults.DefaultTableBuilt | www/manager6/qemu/OSDefaults.js:23-57 | the constructor's two addOS calls succeed and build the table |
| OSDefaults.DefaultTableValues | www/manager6/qemu/OSDefaults.js:37-55 | bus types and network cards of generic, l26 and w2k, and no entry has a busPriority |
| OSDefaults.Defaults.constructor | www/manager6/qemu/OSDefaults.js:23-57 | the singleton holds the default table |
| OSDefaults.Defaults.AddOS | www/manager6/qemu/OSDefaults.js:26-34 | addOS updates the table as the specification does, and leaves it alone when it throws |
| BusTypeSelector.BusTypes | www/manager6/form/BusTypeSelector.js:12-20 | initComponent builds the store list BusData describes |
| BusTypeSelector.BusDataFacts | www/manager6/form/BusTypeSelector.js:12-20 | IDE and SATA first, VIRTIO exactly when allowed, SCSI exactly when allowed and after VIRTIO, no controller twice |
| BusTypeSelector.BusDataControllers | www/manager6/form/BusTypeSelector.js:12-20 | the store offers exactly the controllers the controller selector may pick from the full list |
| BusTypeSelector.ValuesOfBusData | www/manager6/form/BusTypeSelector.js:12-20 | the store's controller names are ide, sata, then virtio and scsi unless excluded |
| ControllerSelector.AllCandidates | www/manager6/form/ControllerSelector.js:77-82 | from the full controller list, ide and sata are always tried, virtio and scsi unless barred |
| CloudInitCreator.CreateValues | www/manager6/qemu/CloudInitCreator.js:9-18 | one drive, under the given confid or controller and device id, on the chosen storage as cloudinit |
| CloudInitCreator.NewDriveKeyIsFree | www/manager6/qemu/CloudInitCreator.js:9-18 | a drive created on a slot the validator accepts lands on a free config key |
| CloudInitCreator.CreatePanel.constructor | www/manager6/qemu/CloudInitCreator.js:31-36 | the panel's controller selector bars VirtIO |
| CloudInitCreator.CreatePanel.SetVMConfig | www/manager6/qemu/CloudInitCreator.js:20-24 | the config is handed to the selector, which picks by usage and never picks virtio |
| VTypes.IPCIDRAddress | www/manager6/Toolkit.js:17-22 | the IPv4 CIDR expression must match and its captured prefix length, read as a number, must lie in 8..32 |
| VTypes.IP6CIDRAddress | www/manager6/Toolkit.js:32-37 | the IPv6 CIDR expression must match and its captured prefix length, read as a number, must lie in 8..120 |
| VTypes.IP6PrefixLength | www/manager6/Toolkit.js:41-43 | the text, converted to a number as the comparison does (the empty text reading as 0), lies in 0..128 |
| VTypes.MacAddress | www/manager6/Toolkit.js:53-55 | six groups of two hex digits joined by colons, matching the whole text |
| VTypes.BridgeName | www/manager6/Toolkit.js:59-61 | vmbr followed by one to four decimal digits and nothing else |
| VTypes.BondName | www/manager6/Toolkit.js:64-66 | bond followed by one to four decimal digits and nothing else |
| VTypes.InterfaceName | www/manager6/Toolkit.js:69-71 | a lower-case letter followed by 1 to 20 lower-case letters, digits or underscores |
| VTypes.QemuStartDate | www/manager6/Toolkit.js:75-77 | the text now, or a date of four year digits and one or two month and day digits, with an optional time Th:m:s of one or two digits each, matching the whole text |
| VTypes.StorageId | www/manager6/Toolkit.js:80-82 | a letter, then letters, digits, hyphens, underscores or dots, ending in a letter or digit, in either case |
| VTypes.ConfigId | www/manager6/Toolkit.js:85-87 | a letter followed by at least one letter, digit or underscore, in either case |
| VTypes.HttpProxy | www/manager6/Toolkit.js:90-92 | the text starts with http:// and holds no line terminator after it |
| VTypes.DnsName | www/manager6/Toolkit.js:95-97 | every dot-separated piece is a label of letters, digits and inner hyphens |
| VTypes.PveMail | www/manager6/Toolkit.js:101-103 | one @ between a local part of word runs joined by single - + . separators and a domain of one to five labels of word characters and hyphens (starting with a word character), each ended by a dot, then 2 to 63 letters |
| VTypes.CidrPrefixRanges | www/manager6/Toolkit.js:17-38 | an address with a matched prefix length k is a valid IPv4 CIDR exactly when 8 <= k <= 32, and a valid IPv6 CIDR exactly when 8 <= k <= 120 |
| VTypes.CidrNeedsMatch | www/manager6/Toolkit.js:17-38 | text the CIDR pattern does not match is never accepted |
| VTypes.PrefixLengthOfDigits | www/manager6/Toolkit.js:41-43 | a decimal prefix length is accepted exactly when its value is at most 128 |
| VTypes.MacGroupsShape | www/manager6/Toolkit.js:53-55 | the group-by-group matcher accepts exactly hex pairs separated by colons of the given length |
| VTypes.MacAddressShape | www/manager6/Toolkit.js:53-55 | a MAC address is exactly six hex pairs joined by five colons (17 characters) |
| VTypes.MacAddressTypeable | www/manager6/Toolkit.js:53-56 | every accepted MAC address can be typed through the field's keystroke mask |
| VTypes.DecimalValueBound | www/manager6/Toolkit.js:59-66 | n digits denote a value below 10^n |
| VTypes.NatToStringLong | www/manager6/Toolkit.js:59-66 | a number of at least 10^k is written with more than k digits |
| VTypes.PrefixedNumberBound | www/manager6/Toolkit.js:59-66 | an accepted bridge or bond name carries a number of at most 9999 |
| VTypes.PrefixedNumberOfNat | www/manager6/Toolkit.js:59-67 | vmbrN (bondN) is accepted exactly when 0 <= N <= 9999, as the field's help text says |
| VTypes.StorageTailShape | www/manager6/Toolkit.js:80-82 | the tail matcher accepts exactly storage characters ending in a letter or digit |
| VTypes.StorageIdIsShape | www/manager6/Toolkit.js:80-82 | a storage id is exactly a letter, then letters, digits, '-', '_' or '.', ending in a letter or digit |
| Js.DigitRunOf | www/manager6/Toolkit.js:75-77 | the digit run of digits followed by a non-digit is exactly those digits |
| VTypes.DigitsThenOf | www/manager6/Toolkit.js:75-77 | a bounded digit group followed by its separator is consumed exactly when its length is within bounds |
| VTypes.DigitsEndOf | www/manager6/Toolkit.js:75-77 | a final digit group is accepted exactly when its length is within bounds |
| VTypes.TimeParts | www/manager6/Toolkit.js:75-77 | the time part Th:m:s is accepted exactly when each field has one or two digits |
| VTypes.DayParts | www/manager6/Toolkit.js:75-77 | the day field is accepted exactly with one or two digits and a valid optional time |
| VTypes.DateParts | www/manager6/Toolkit.js:75-77 | y-m-d is accepted exactly with four year digits, one or two month and day digits and a valid optional time |
| VTypes.StartDateForms | www/manager6/Toolkit.js:75-78 | the start date accepts "now", y-m-d and y-m-dTh:m:s with exactly the digit counts of its help text |
| VTypes.DnsNameOfLabels | www/manager6/Toolkit.js:95-97 | labels of letters, digits and inner hyphens joined by dots always form a valid DNS name |
| VTypes.DnsNameLabels | www/manager6/Toolkit.js:95-97 | a valid DNS name splits at its dots into non-empty labels that neither start nor end with a hyphen |
| VTypes.WordRun | www/manager6/Toolkit.js:101-103 | the longest prefix of word characters: all of it word characters and the next one not |
| VTypes.LocalPartShape | www/manager6/Toolkit.js:101-103 | the part before '@' starts and ends with a word character, and each of its separators is followed by a word character |
| VTypes.PveMailShape | www/manager6/Toolkit.js:101-103 | an accepted address has one '@', a valid local part and a domain of two to six dot-separated labels whose last is at least two characters |
| DNS.OnGetValues | www/manager6/qemu/DNS.js:7-33 | without a search domain: nothing inside the wizard, otherwise deletion of searchdomain and nameserver; with one: dns1..dns3 are dropped, every other value kept, the filled servers joined by spaces into nameserver, or nameserver deleted outside the wizard when none is filled |
| DNS.LoadValues | www/manager6/qemu/DNS.js:141-154 | a set nameserver is split on white space and its first three pieces fill dns1..dns3 (undefined past the end); otherwise the values are untouched |
| DNS.Servers | www/manager6/qemu/DNS.js:17-23 | the filled server fields, in field order, as text, never more than there are fields |
| DNS.ServersOfFilled | www/manager6/qemu/DNS.js:17-23 | the servers collected from the first n fields are exactly the filled ones, in order |
| DNS.ServersRoundTrip | www/manager6/qemu/DNS.js:17-151 | servers typed into dns1..dnsk are joined into nameserver, and splitting that again gives them back in the same positions |
| DNS.LoadKeepsSeparators | www/manager6/qemu/DNS.js:145-151 | a nameserver without white space loads whole into dns1: the comma and semicolon replacement has no effect |
| DNS.LoadLeadingSpace | www/manager6/qemu/DNS.js:145-151 | leading white space loads an empty dns1 and the first server into dns2: the leading-space replacement has no effect |
| DNS.SubmitThenLoad | www/manager6/qemu/DNS.js:7-154 | submitting servers and loading the stored option fills the same fields with the same servers and leaves the rest undefined |
| IPConfigEdit.WithModes | www/manager6/qemu/IPConfigEdit.js:32-52 | every key kept; ipv4mode is dhcp or static, ipv6mode dhcp, auto or static; a static mode keeps its address, any other clears it |
| IPConfigEdit.FromModes | www/manager6/qemu/IPConfigEdit.js:7-19 | ip (ip6) becomes the mode unless the mode is static, when the typed address is kept; nothing else changes |
| IPConfigEdit.ModesRoundTrip | www/manager6/qemu/IPConfigEdit.js:7-48 | loading a configuration and submitting it unchanged gives back its ip, its ip6 and every other key |
| IPConfigEdit.IPConfigPanel.constructor | www/manager6/qemu/IPConfigEdit.js:54-58 | the panel starts on ipconfig0 with an empty configuration |
| IPConfigEdit.IPConfigPanel.OnGetValues | www/manager6/qemu/IPConfigEdit.js:7-30 | exactly one parameter: deletion of the option when the printed configuration is empty, otherwise the printed configuration under the option's name |
| IPConfigEdit.IPConfigPanel.SetIPConfig | www/manager6/qemu/IPConfigEdit.js:32-52 | the panel's option and configuration become the given option and the configuration with its modes derived |
| IPConfigEdit.IPConfigEditWindow.constructor | www/manager6/qemu/IPConfigEdit.js:190-212 | the window creates exactly when no option is given |
| IPConfigEdit.IPConfigEditWindow.OnLoad | www/manager6/qemu/IPConfigEdit.js:214-228 | a set option that does not parse alerts and closes the window; otherwise the panel gets the parsed configuration, or an empty one when the option is unset |
| HotplugFeatureSelector.Expand | www/manager6/form/HotplugFeatureSelector.js:9-23 | "0" selects nothing, "1" disk, network and usb, other text its comma-separated items; lists and single-select values are untouched |
| HotplugFeatureSelector.SubmitData | www/manager6/form/HotplugFeatureSelector.js:25-43 | nothing when disabled or not submitted; a list is submitted as its comma-joined text or "0"; any other value but null and '' is submitted as it is under the field's name; an empty value is deleted when deleteEmpty is set and dropped otherwise |
| HotplugFeatureSelector.JoinNotOne | www/manager6/form/HotplugFeatureSelector.js:25-43 | joined feature names never read "0" or "1" |
| HotplugFeatureSelector.JoinNotEmpty | www/manager6/form/HotplugFeatureSelector.js:25-43 | a non-empty list of feature names joins to non-empty text |
| HotplugFeatureSelector.SubmitExpandRoundTrip | www/manager6/form/HotplugFeatureSelector.js:9-43 | any selection of features is submitted and set back as the same selection, the empty one included |
| HotplugFeatureSelector.OneIsDefaults | www/manager6/form/HotplugFeatureSelector.js:12-17 | "1" stands for disk, network and usb, and that selection is submitted as their names rather than "1" |
| LxcMountPoint.MpNames | www/manager6/lxc/ResourceEdit.js:335-340 | the selector offers exactly mp0..mp7, in order |
| LxcMountPoint.WindowKind | www/manager6/lxc/ResourceEdit.js:50-68 | an unusedN option attaches an unused disk, no option creates, anything else edits; the subject names the option only when editing |
| LxcMountPoint.FreeMp | www/manager6/lxc/ResourceEdit.js:296-305 | the first mount point name from i on that the config does not define, or none when all are defined |
| LxcMountPoint.MpselError | www/manager6/lxc/ResourceEdit.js:347-355 | the selector refuses exactly the names the config already defines |
| LxcMountPoint.UnusedDisks | www/manager6/lxc/ResourceEdit.js:307-313 | exactly the unusedN entries of the config, with their values |
| LxcMountPoint.SetFlag | www/manager6/lxc/ResourceEdit.js:242-264 | a flag option holds 1 when its box is ticked and is absent otherwise; no other option changes |
| LxcMountPoint.WithFile | www/manager6/lxc/ResourceEdit.js:231-236 | an unused disk takes the chosen image's volume, a new mount point storage:size, an existing one keeps its file; no other option changes |
| LxcMountPoint.WithPath | www/manager6/lxc/ResourceEdit.js:238-240 | the mount path is the form's except for rootfs, which keeps its own; no other option changes |
| LxcMountPoint.WithAcl | www/manager6/lxc/ResourceEdit.js:254-258 | acl 'Default' (strictly equal) removes the option, any other value is stored; no other option changes |
| LxcMountPoint.SubmittedSlots | www/manager6/lxc/ResourceEdit.js:226-265 | option by option, the submitted data holds the chosen file and path, each flag exactly when ticked, the ACL unless 'Default', and every other option as it was |
| LxcMountPoint.SubmitIdempotent | www/manager6/lxc/ResourceEdit.js:226-265 | submitting the same form again leaves the mount point data exactly as the first submit left it |
| LxcMountPoint.FirstFreeMp | www/manager6/lxc/ResourceEdit.js:296-305 | the loop over mp0..mp7 stops at the first name the config leaves undefined, and finds none when all eight are defined |
| LxcMountPoint.ChosenMpAccepted | www/manager6/lxc/ResourceEdit.js:296-355 | the name setVMConfig preselects is one the selector offers and its validator accepts |
| LxcMountPoint.PresetForm | www/manager6/lxc/ResourceEdit.js:457-522 | the fields start as ACLs 'Default', an empty path for any option but rootfs, and a disk size of 8 when a new volume is created; no other field has a value |
| LxcMountPoint.MountPointPanel.constructor | www/manager6/lxc/ResourceEdit.js:325-527 | the selector exists exactly when creating or attaching; no data yet and the fields preset as PresetForm says |
| LxcMountPoint.MountPointPanel.OnGetValues | www/manager6/lxc/ResourceEdit.js:226-269 | the mount point data becomes the submitted one and the result is its printed form under the target option alone |
| LxcMountPoint.MountPointPanel.SetMountPoint | www/manager6/lxc/ResourceEdit.js:271-289 | the data gets acl Default when unset; a bind mount disables quota, acl, backup and storage and resets quota and acl; the form takes the data |
| LxcMountPoint.MountPointPanel.SetVMConfig | www/manager6/lxc/ResourceEdit.js:291-317 | the config is kept; the selector is set to the first free name if any; the unused-disk list becomes the config's unused disks and selects the option |
| LxcMountPoint.MountPointEdit.constructor | www/manager6/lxc/ResourceEdit.js:42-75 | the window's kind follows the option, and its panel is created with that option, kind, empty data and the preset fields |
| LxcMountPoint.MountPointEdit.OnLoad | www/manager6/lxc/ResourceEdit.js:77-94 | the panel gets the config; an option that does not parse alerts and closes, one that parses becomes the panel's data |
| CloudInit.IpKeyInjective | www/manager6/qemu/CloudInit.js:72-84 | distinct indices give distinct ipconfigN keys |
| CloudInit.IpKeyNotNetKey | www/manager6/qemu/CloudInit.js:72-84 | no ipconfigN key is a netM key |
| CloudInit.Find | www/manager6/qemu/CloudInit.js:277-278 | a record is found exactly when the store holds its key, and the one found is in the store under that key |
| CloudInit.CloudinitVolumeOf | www/manager6/qemu/CloudInit.js:280 | the volume storage:vm-N-cloudinit the drive creator makes is recognised as a cloud-init image |
| CloudInit.CloudinitDrive | www/manager6/qemu/CloudInit.js:275-286 | a drive found is a store record under a bus key holding a cloud-init image; none is found exactly when no bus key qualifies |
| CloudInit.CloudinitDriveFirst | www/manager6/qemu/CloudInit.js:275-286 | the drive found is the record of the first qualifying key in bus order |
| CloudInit.Removed | www/manager6/qemu/CloudInit.js:297-306 | ipconfigN is removed exactly when it is present and netN is not; only ipconfig keys are removed |
| CloudInit.Added | www/manager6/qemu/CloudInit.js:297-312 | ipconfigN is added exactly when netN is present and ipconfigN is not; only ipconfig keys, none twice |
| CloudInit.Without | www/manager6/qemu/CloudInit.js:313-314 | exactly the records whose key is not removed |
| CloudInit.WithoutKeys | www/manager6/qemu/CloudInit.js:313-314 | removing records removes exactly their keys |
| CloudInit.WithoutUnique | www/manager6/qemu/CloudInit.js:313-314 | removing records keeps the keys unique |
| CloudInit.WithoutNothing | www/manager6/qemu/CloudInit.js:313-314 | removing keys the store does not hold leaves it as it is |
| CloudInit.NewRows | www/manager6/qemu/CloudInit.js:308-316 | one empty record per key to add, in order |
| CloudInit.KeysOfReconciled | www/manager6/qemu/CloudInit.js:295-316 | after update_data the keys are the old ones minus the removed and plus the added ones |
| CloudInit.ReconciledPairs | www/manager6/qemu/CloudInit.js:295-316 | after update_data ipconfigN is present exactly when netN is, and netN exactly when it was before |
| CloudInit.ReconciledUnique | www/manager6/qemu/CloudInit.js:295-316 | update_data keeps the store's keys unique |
| CloudInit.AppliedUnique | www/manager6/qemu/CloudInit.js:313-316 | adding distinct fresh keys after removing some keeps the keys unique |
| CloudInit.AddedFresh | www/manager6/qemu/CloudInit.js:307-308 | no key added is already in the store |
| CloudInit.ReconciledPaired | www/manager6/qemu/CloudInit.js:295-316 | after update_data every network device has its ipconfig row and no ipconfig row is left without one |
| CloudInit.PairedNoneRemoved | www/manager6/qemu/CloudInit.js:302-305 | a paired store has nothing to remove |
| CloudInit.PairedNoneAdded | www/manager6/qemu/CloudInit.js:307-309 | a paired store has nothing to add |
| CloudInit.PairedFixed | www/manager6/qemu/CloudInit.js:295-316 | update_data leaves a paired store as it is |
| CloudInit.ReconciledIdempotent | www/manager6/qemu/CloudInit.js:295-316 | running update_data twice gives the same store as running it once |
| CloudInit.Shown | www/manager6/qemu/CloudInit.js:307-311 | ipconfigN is made visible exactly when netN is present |
| CloudInit.BaseUrl | www/manager6/qemu/CloudInit.js:14-95 | an error without a node, then without a VM id; otherwise the VM's config path |
| CloudInit.RowDefOf | www/manager6/qemu/CloudInit.js:26-89 | with the network capability hostname, searchdomain and nameserver open DNSEdit, sshkey opens SSHKeyEdit and ipconfigN opens IPConfigEdit, and without it none has an editor; visible rows can be deleted exactly with the capability; netN rows and drive rows are hidden and have no editor (drive rows never marked never_delete); unknown keys have no row |
| CloudInit.ButtonStatus | www/manager6/qemu/CloudInit.js:250-268 | without a selection both buttons are disabled; Edit is enabled only for a row with an editor that is not pending deletion; Revert exactly for a row pending a change or deletion |
| CloudInit.RunEditor | www/manager6/qemu/CloudInit.js:99-131 | an editor opens exactly for a selected row that has one, on its key and the config URL |
| CloudInit.SetCloudinitStatus | www/manager6/qemu/CloudInit.js:133-160 | ticking opens the drive creator; clearing sends a forced PUT deleting the drive |
| CloudInit.Commit | www/manager6/qemu/CloudInit.js:162-201 | an error without a drive or with a drive string that does not parse; otherwise two PUTs: eject the drive, then set it again |
| CloudInit.CommitRecreates | www/manager6/qemu/CloudInit.js:175-178 | the second PUT sets the drive to what the drive creator would create on the parsed storage |
| CloudInit.RevertParams | www/manager6/qemu/CloudInit.js:229-239 | one revert parameter: the row's key when it has no multiKey |
| CloudInit.FindDrive | www/manager6/qemu/CloudInit.js:272-286 | the loop over the buses finds the drive CloudinitDrive names |
| CloudInit.PlanRows | www/manager6/qemu/CloudInit.js:295-312 | the loop over the 32 devices collects exactly the keys to remove, to add and to show |
| CloudInit.Update | www/manager6/qemu/CloudInit.js:270-317 | the drive is found, the store reconciled (unique keys, paired) and the new rows shown |
| CloudInit.CloudInitGrid.constructor | www/manager6/qemu/CloudInit.js:203-216 | an empty store, no drive, the Enable box clear and Commit disabled |
| CloudInit.Enabled | www/manager6/qemu/CloudInit.js:288-288 | the Enable box is ticked exactly when a cloud-init drive was found and it is not pending deletion |
| CloudInit.CloudInitGrid.UpdateData | www/manager6/qemu/CloudInit.js:270-317 | the store is updated as Update says, the Enable box is ticked exactly when an undeleted drive exists, and Commit follows it |
| CloudInitSshKey.SpaceRun | www/manager6/qemu/CloudInit.js:55 | the longest run of white space a `\s+` (`\s*`) can take at the start |
| CloudInitSshKey.WordRun | www/manager6/qemu/CloudInit.js:55 | the longest run of non-white-space a `\S+` can take at the start |
| CloudInitSshKey.QuotedEnd | www/manager6/qemu/CloudInit.js:53 | the end of a quoted string is just past its closing quote |
| CloudInitSshKey.StripQuotedNoQuote | www/manager6/qemu/CloudInit.js:52-53 | a text without quotes is left as it is |
| CloudInitSshKey.StripQuotedString | www/manager6/qemu/CloudInit.js:52-53 | a quoted option value such as command="…" is erased whole |
| CloudInitSshKey.StripQuotedNoSpace | www/manager6/qemu/CloudInit.js:52-53 | erasing quoted strings never brings in white space |
| CloudInitSshKey.TypeKeyComment | www/manager6/qemu/CloudInit.js:55 | the comment read after the type and the key has no line terminator and no trailing white space |
| CloudInitSshKey.TypeKeyCommentOf | www/manager6/qemu/CloudInit.js:55 | "type key comment" is taken apart into exactly its comment |
| CloudInitSshKey.KeyLine | www/manager6/qemu/CloudInit.js:54-61 | after leading white space, first a match with an options word and white space before the key type, else one without; the result tells whether the options were there and gives the comment |
| CloudInitSshKey.KeyLinePlain | www/manager6/qemu/CloudInit.js:54-61 | a key line without options is recognised with its comment and no options mark |
| CloudInitSshKey.KeyLineWithOptions | www/manager6/qemu/CloudInit.js:54-61 | a key line with an options word in front is recognised with its comment and the options noted |
| CloudInitSshKey.KeyLineNeedsSpace | www/manager6/qemu/CloudInit.js:55-56 | a text without white space is never taken for a key line |
| CloudInitSshKey.Render | www/manager6/qemu/CloudInit.js:49-67 | the decoded value with quoted strings erased is tried as a key line: a key line shows its HTML-encoded comment, marked when it has options; anything else shows the decoded value HTML-encoded |
| CloudInitSshKey.RenderKeyLine | www/manager6/qemu/CloudInit.js:49-67 | a key line with options renders as its encoded comment followed by the "with options" note |
| CloudInitSshKey.RenderPlainText | www/manager6/qemu/CloudInit.js:49-67 | a value that is not a key line is shown as its decoding, HTML-encoded |
| StorageEdit.OnGetValues | www/manager/storage/LVMEdit.js:95-109 | a new storage gets its type (lvm, zfspool or btrfs; LVM also content images) and keeps its id; an existing one drops its id; disable is the inverse of Enable, which is dropped; every other value passes unchanged |
| StorageEdit.LoadValues | www/manager6/storage/ZFSPoolEdit.js:167-175 | content is split on commas for ZFS and BTRFS (nothing giving one empty entry), a set nodes list is split, Enable is the inverse of disable, and nothing else changes |
| StorageEdit.LoadThenSubmit | www/manager/storage/LVMEdit.js:95-266 | loading an existing storage and submitting the form unchanged sends only values the form has a field for (plus disable); with the Enable box it keeps the disable flag, with a nodes field the nodes list, and every other field's value as loaded |
| StorageEdit.ContentRoundTrip | www/manager6/storage/ZFSPoolEdit.js:167-175 | the loaded content list joins back to the stored text |
| StorageEdit.StorageWindow | www/manager/storage/LVMEdit.js:233-241 | the window creates exactly without a storage id: POST to the storage collection, otherwise PUT to the storage's URL |
| StorageEdit.PoolField | www/manager6/storage/ZFSPoolEdit.js:77-90 | the pool is picked with the ZFS pool selector on create and shown in a display field otherwise |
| StorageEdit.ZfsColumn2 | www/manager6/storage/ZFSPoolEdit.js:119-129 | the Nodes selector is offered, first, unless the storage edited is 'local'; Enable and Thin provision always end the column |
| StorageEdit.PlaceholderText | www/manager/storage/LVMEdit.js:63-77 | the empty placeholder entry reads as the existing volume groups, and every iSCSI storage reads as its own distinct label |
| StorageEdit.LvmPanel.constructor | www/manager/storage/LVMEdit.js:110-184 | the volume group selector starts enabled, the volume group text and the base volume disabled |
| StorageEdit.LvmPanel.OnBaseselChange | www/manager/storage/LVMEdit.js:160-177 | with a base storage the volume group text and base volume are shown and enabled and the selector hidden and disabled, without one the reverse; the base volume lists that storage |
| ConfigPanel.NameRun | www/manager6/panel/ConfigPanel.js:14 | the longest run of characters other than '-' and white space at the start |
| ConfigPanel.NameRunOf | www/manager6/panel/ConfigPanel.js:14 | the name run of a tab name followed by a '-' or white space is that name |
| ConfigPanel.HStateTab | www/manager6/panel/ConfigPanel.js:14-22 | a tab read from a history state is a tab name that starts the state |
| ConfigPanel.HStateTabOf | www/manager6/panel/ConfigPanel.js:14-22 | a tab name alone, or followed by '-' and a suffix without white space, reads as that tab |
| ConfigPanel.HStateTabRejects | www/manager6/panel/ConfigPanel.js:14-22 | a state holding white space names no tab |
| ConfigPanel.InitialTab | www/manager6/panel/ConfigPanel.js:16-24 | a tab is restored only with a state id whose stored state has a value, and it is the tab that value names |
| ConfigPanel.Toolbar | www/manager6/panel/ConfigPanel.js:29-41 | the tool bar is the title (the panel's, else the node's text), then '->', then the panel's own tools unchanged |
| ConfigPanel.ShowSearch | www/manager6/panel/ConfigPanel.js:43-45 | search is shown when the panel leaves showSearch unset, and otherwise when its value is truthy |
| ConfigPanel.Tabs | www/manager6/panel/ConfigPanel.js:43-50 | with search shown (the default) a search tab comes first and the panel's tabs follow unchanged; otherwise the tabs are the panel's |
| ConfigPanel.Config.constructor | www/manager6/panel/ConfigPanel.js:8-61 | the panel opens on the tab its stored state names when it has one, and on the first tab otherwise |
| ConfigPanel.Config.OnTabChange | www/manager6/panel/ConfigPanel.js:76-91 | the new tab is stored under the state id ('' for the first tab), or the tab's own state under its own id; nothing is stored without a state id |
| ConfigPanel.Config.OnStateChange | www/manager6/panel/ConfigPanel.js:102-111 | a state under the panel's id opens the tab it names, or the first tab; any other change leaves the open tab alone, and nothing is stored |
| ConfigPanel.TabRoundTrip | www/manager6/panel/ConfigPanel.js:76-111 | storing a tab switch and receiving that state back opens the same tab, the first tab included |
| LxcConfig.Gated | www/manager/lxc/Config.js:157-204 | a tab is added exactly when its capability is granted, and only that tab |
| LxcConfig.Tabs | www/manager/lxc/Config.js:122-204 | the six base tabs, then Backup with VM.Backup, Console and Snapshots with VM.Console and VM.Snapshot, Firewall with VM.Console and Permissions with Permissions.Modify |
| LxcConfig.TabList | www/manager/lxc/Config.js:122-204 | the tabs are the six base tabs followed by the granted ones, in their order |
| LxcConfig.ItemIds | www/manager/lxc/Config.js:122-204 | every tab's item id is a tab name the history state can hold, and distinct tabs have distinct ids |
| LxcConfig.TabsOf | www/manager/lxc/Config.js:122-204 | Summary comes first, every base tab is present, and Backup, Console, Snapshots, Firewall (with VM.Console) and Permissions are present exactly with their capabilities |
| LxcConfig.TabsDistinct | www/manager/lxc/Config.js:122-204 | no tab is listed twice |
| LxcConfig.FirewallStateOpensFirewall | www/manager/lxc/Config.js:184-195 | a firewall sub-state firewall-X stored under the panel's id reopens the Firewall tab |
| LxcConfig.Description | www/manager/lxc/Config.js:104-114 | "vmid ('name' )" when a name is set, otherwise "vmid ('CT vmid')" |
| LxcConfig.Init | www/manager/lxc/Config.js:8-117 | an error without a node, then without a VM id; otherwise the container's URL, its description and the title naming both |
| LxcConfig.Status | www/manager/lxc/Config.js:208-216 | a failed load or a missing status record gives 'unknown', otherwise the record's value |
| LxcConfig.LxcConfig.constructor | www/manager/lxc/Config.js:39-102 | Start, Shutdown and Stop are disabled exactly without VM.PowerMgmt, Remove exactly without VM.Allocate; Unmount starts disabled and hidden |
| LxcConfig.LxcConfig.OnStatusLoad | www/manager/lxc/Config.js:208-231 | Start is disabled when running, Shutdown when not running, Stop when stopped, Remove when not stopped, each also without its capability; Unmount is shown exactly when mounted, Stop otherwise |
| LxcConfig.StatusButtons | www/manager/lxc/Config.js:208-231 | with the power capability Start and Shutdown are never both enabled or both disabled, nor Stop and Remove with both capabilities; a failed load leaves only Start and Stop usable |
| HaResourceEdit.LastColon | www/manager6/ha/ResourceEdit.js:184-185 | the last ':' at or before position p (and after the first character), or none |
| HaResourceEdit.SplitSid | www/manager6/ha/ResourceEdit.js:184-185 | a match of ^(\S+):(\S+)$ splits the sid at its last colon into two non-empty parts without white space; no match means white space or no inner colon |
| HaResourceEdit.SplitSidOf | www/manager6/ha/ResourceEdit.js:184-185 | type:id with both parts free of white space and a colon-free id splits back into type and id |
| HaResourceEdit.LastColonAt | www/manager6/ha/ResourceEdit.js:184-185 | the last colon is found where it is |
| HaResourceEdit.LoadValues | www/manager6/ha/ResourceEdit.js:179-193 | a sid that does not match is a type error; a type other than vm or ct gives "got unexpected resource type"; otherwise vmid becomes the id part |
| HaResourceEdit.Prepared | www/manager6/ha/ResourceEdit.js:6-14 | on create sid is set to vmid; vmid is always dropped; every other value is kept |
| HaResourceEdit.OnGetValues | www/manager6/ha/ResourceEdit.js:6-21 | the prepared values, with group, max_restart and max_relocate handed to delete_if_default with their defaults '', '1', '1' |
| HaResourceEdit.LoadThenSubmit | www/manager6/ha/ResourceEdit.js:6-193 | loading a resource and submitting it unchanged gives back exactly the loaded values of the edit form's fields (max_restart, max_relocate, group, state, comment), and never the vmid the load added |
| HaResourceEdit.CreatedThenLoaded | www/manager6/ha/ResourceEdit.js:179-193 | a vm:id or ct:id resource loads with that id as its vmid |
| HaResourceEdit.ResourceWindow | www/manager6/ha/ResourceEdit.js:154-162 | the window creates exactly without a vmid: POST to the resources, otherwise PUT to the resource |
| HaResourceEdit.LimitsAccept | www/manager6/ha/ResourceEdit.js:79-96 | max_restart and max_relocate accept exactly the integers 0..10, and not blank; their default 1 is accepted |
| HaResourceEdit.GuestField | www/manager6/ha/ResourceEdit.js:70-78 | a display field for a known vmid, a guest selector otherwise; labelled CT only for a known container, VM otherwise |
| HaResourceEdit.VoteOf | www/manager6/ha/ResourceEdit.js:57-58 | a node counts its quorum_votes read by parseInt in base 10, and 0 when that gives NaN |
| HaResourceEdit.Votes | www/manager6/ha/ResourceEdit.js:55-59 | the sum of the votes of the nodes |
| HaResourceEdit.TotalVotes | www/manager6/ha/ResourceEdit.js:53-59 | the loop sums each node's votes as Votes defines them |
| HaResourceEdit.VoteOfNumber | www/manager6/ha/ResourceEdit.js:56-58 | a node with n votes counts n |
| HaResourceEdit.VoteOfMissing | www/manager6/ha/ResourceEdit.js:56-58 | a node without quorum_votes counts 0, parseInt's NaN |
| HaResourceEdit.OneVoteEach | www/manager6/ha/ResourceEdit.js:53-59 | with one vote per node the total is the number of nodes |
| HaResourceEdit.HaResourcePanel.constructor | www/manager6/ha/ResourceEdit.js:27-45 | both hints start hidden |
| HaResourceEdit.HaResourcePanel.OnNodesLoaded | www/manager6/ha/ResourceEdit.js:53-65 | fewer than three votes shows the warning with the total; otherwise nothing changes |
| HaResourceEdit.HaResourcePanel.OnStateChange | www/manager6/ha/ResourceEdit.js:116-127 | the disabled hint is shown exactly when the requested state becomes 'disabled' |
| HaResourceEdit.FewVotesHint | www/manager6/ha/ResourceEdit.js:53-65 | in a cluster of one-vote nodes the warning shows exactly with fewer than three nodes |
| HaResources.RunEditor | www/manager/ha/Resources.js:42-58 | a sid that does not match is a type error; only vm:id and ct:id open the editor, on the id part |
| HaResources.EditorOfGuest | www/manager/ha/Resources.js:42-58 | editing vm:id or ct:id opens an editor window on id, which PUTs to that resource |
| HaResources.StateText | www/manager/ha/Resources.js:119-121 | an empty state reads 'enabled', any other as itself |
| HaResources.EscapeQuotes | www/manager/ha/Resources.js:33-34 | no '"' is left, and text without one is unchanged |
| HaResources.RenderError | www/manager/ha/Resources.js:26-38 | a cell is marked exactly when the record has errors and one for its column, with the invalid class and the escaped message as tool tip |
| HaResources.ToolTipQuoted | www/manager/ha/Resources.js:33-34 | the tool tip attribute stays one quoted value: no quote inside it |
| HaResources.AccessOf | www/manager/ha/Resources.js:98-145 | without Sys.Console Add is disabled and rows cannot be selected, and with it both are allowed |
| HaResources.RemoveUrl | www/manager/ha/Resources.js:64-68 | the DELETE goes to the resources path followed by the sid |
| LxcFeatures.DeleteNames | www/manager/lxc/FeaturesEdit.js:8-17 | no delete gives no names, a list its items, anything else the one name |
| LxcFeatures.Names | www/manager/lxc/FeaturesEdit.js:15-17 | the set of the names listed |
| LxcFeatures.Merged | www/manager/lxc/FeaturesEdit.js:6-17 | deleted names are absent even when also set; every other submitted value is taken; untouched features are kept; nothing else appears |
| LxcFeatures.Assigned | www/manager/lxc/FeaturesEdit.js:11-13 | the loop over the submitted values writes each of them into the features, overriding the old value |
| LxcFeatures.Deleted | www/manager/lxc/FeaturesEdit.js:15-17 | the loop over the delete list removes exactly the listed names from the features |
| LxcFeatures.MergedIdempotent | www/manager/lxc/FeaturesEdit.js:6-17 | submitting the same values twice gives the same features as once |
| LxcFeatures.Shown | www/manager/lxc/FeaturesEdit.js:36-60 | at most one check box per option, each checked exactly when its feature parses as true |
| LxcFeatures.ShownSound | www/manager/lxc/FeaturesEdit.js:36-42 | every check box belongs to an option the user may change or that is already set |
| LxcFeatures.ShownRed | www/manager/lxc/FeaturesEdit.js:43-58 | every option that is allowed or set gets a check box with its name as label, red exactly when it is not allowed |
| LxcFeatures.ComparatorNeverNegative | www/manager/lxc/FeaturesEdit.js:25 | the comparator as written never answers "before", and for two ids answers 1 one way round and 0 the other |
| LxcFeatures.ComparatorInconsistent | www/manager/lxc/FeaturesEdit.js:25 | for ids "a" and "b" it says "after" one way and "equal" the other |
| LxcFeatures.StrLeAntisymmetric | www/manager/lxc/FeaturesEdit.js:25 | two ids each at most the other are equal |
| LxcFeatures.CompareIds | www/manager/lxc/FeaturesEdit.js:25 | negative, zero or positive exactly as the first id sorts before, with or after the second |
| LxcFeatures.CompareIdsAntisymmetric | www/manager/lxc/FeaturesEdit.js:25 | swapping the options negates the answer |
| LxcFeatures.CheckItems | www/manager/lxc/FeaturesEdit.js:36-60 | the loop adds exactly the check boxes Shown lists |
| LxcFeatures.FeaturesPanel.constructor | www/manager/lxc/FeaturesEdit.js:4-67 | no features and no items yet |
| LxcFeatures.FeaturesPanel.OnGetValues | www/manager/lxc/FeaturesEdit.js:6-20 | the features become the merged ones and the result is their printed form under the one key features |
| LxcFeatures.FeaturesPanel.FillForm | www/manager/lxc/FeaturesEdit.js:22-61 | unparsable features close the window and add nothing; otherwise the parsed features replace the current ones and the shown check boxes are added |
| LxcFeatures.FeaturesPanel.FillFormSorted | www/manager/lxc/FeaturesEdit.js:22-61 | the options are listed ascending by id, and the check boxes follow that order |
| ObjectGrid.ObjectValue | www/manager/grid/ObjectGrid.js:5-12 | the value of the key's record when there is one, the caller's default otherwise |
| ObjectGrid.RenderKey | www/manager/grid/ObjectGrid.js:14-19 | the row's header when the key has a row with a non-empty header, the key itself otherwise |
| ObjectGrid.RenderValue | www/manager/grid/ObjectGrid.js:21-33 | the row's renderer applied to the value when there is one, the value unchanged otherwise |
| ObjectGrid.Source | www/manager/grid/ObjectGrid.js:40-51 | without a store and a URL the grid throws "no url specified"; it builds its own store exactly when it has none |
| ObjectGrid.Defaults | www/manager/grid/ObjectGrid.js:57-65 | exactly the rows with a default value or marked required have a record, holding the default or undefined |
| ObjectGrid.InitialValue | www/manager/grid/ObjectGrid.js:5-65 | before loading, a key reads as its row's default, undefined for a required row without one, the caller's default otherwise |
| ObjectGrid.VisibleRows | www/manager/grid/ObjectGrid.js:73-84 | with row definitions a key without a row is hidden and one with a row is hidden exactly when visible is false; without definitions all keys show |
| ObjectGrid.ObjectGridPanel.constructor | www/manager/grid/ObjectGrid.js:57-65 | the loop leaves exactly the preset records of Defaults in the store |
| ObjectGrid.ObjectGridPanel.GetObjectValue | www/manager/grid/ObjectGrid.js:5-12 | the value of the grid's record for the key, or the caller's default when it has none |
| LxcOptions.Rows | www/manager6/lxc/Options.js:22-138 | the grid has exactly the rows onboot, startup, ostype, arch, console, tty, cmode and protection |
| LxcOptions.EditorsNeedCaps | www/manager6/lxc/Options.js:22-138 | every editor needs VM.Config.Options; startup needs Sys.Modify on the node too; ostype and arch have none |
| LxcOptions.RunEditor | www/manager6/lxc/Options.js:148-178 | no selection does nothing; a key without a row is a type error; a row's editor opens on the key with the config URL, and a window configuration loads first |
| LxcOptions.EditEnabled | www/manager6/lxc/Options.js:184-187 | Edit is enabled exactly for a row with an editor; a key without a row is a type error |
| LxcOptions.EditEnabledOpens | www/manager6/lxc/Options.js:148-187 | Edit is enabled exactly when running the editor opens a window |
| LxcOptions.ConfigUrl | www/manager6/lxc/Options.js:10-18 | the view throws without node or VM ID; otherwise the URL is nodes/node/lxc/vmid/config |
| LxcOptions.TtySubmit | www/manager6/lxc/Options.js:87-95 | a value other than none, '' and '2' is submitted as tty; anything else deletes tty |
| LxcOptions.TtyRoundTrip | www/manager6/lxc/Options.js:72-95 | a count 0..6 is submitted exactly when it is not the default 2, and then reads back as itself; the default row value is 2 |
| Common.NodeName | www/manager/node/Tasks.js:11-14 | a view throws "no node name specified" exactly when the node is not truthy, and otherwise works on that node |
| Common.GuestIds | www/manager6/lxc/Options.js:10-18 | the node is checked first, then the VM ID; both truthy gives the pair |
| Common.OpenEdit | www/manager6/ha/ResourceEdit.js:154-162 | an edit window creates exactly without an id, posting to the collection; otherwise it puts to the collection's URL followed by the id |
| LxcResources.MiBBytes | www/manager/lxc/Resources.js:45-47 | a value that reads as a number is that many MiB in bytes; any other is NaN |
| LxcResources.CpuLimitText | www/manager/lxc/Resources.js:65-68 | a truthy limit shows as itself, any other as the unlimited text |
| LxcResources.BaseRows | www/manager/lxc/Resources.js:38-82 | the fixed rows are exactly memory, swap, cpulimit, cpuunits and rootfs |
| LxcResources.MpNamesInjective | www/manager/lxc/Resources.js:84-91 | different indices give different mount point keys |
| LxcResources.MpKeyOf | www/manager/lxc/Resources.js:84-91 | every mp key is a mount point key |
| LxcResources.MpNameDistinct | www/manager/lxc/Resources.js:84-91 | two different indices never share a row |
| LxcResources.MpRows | www/manager/lxc/Resources.js:84-91 | mp0 up to mp(n-1) have the mount point row, and every key there is a disk row without an editor |
| LxcResources.MpRowsNext | www/manager/lxc/Resources.js:84-91 | one more loop round adds exactly the next mount point row |
| LxcResources.MpRowsOld | www/manager/lxc/Resources.js:84-91 | a loop round keeps every row already added |
| LxcResources.Rows | www/manager/lxc/Resources.js:38-91 | the loop builds exactly the table of the fixed rows and the ten mount point rows |
| LxcResources.TableAtBase | www/manager/lxc/Resources.js:38-91 | a fixed row is in the table unchanged and is not a mount point row |
| LxcResources.TableKeys | www/manager/lxc/Resources.js:38-91 | the table has exactly the five fixed keys and mp0 to mp9 |
| LxcResources.TableEditors | www/manager/lxc/Resources.js:41-73 | memory and swap are edited exactly with VM.Config.Memory, the CPU rows exactly with VM.Config.CPU; none of them is a disk |
| LxcResources.BaseEditors | www/manager/lxc/Resources.js:41-73 | the same, on the fixed rows alone |
| LxcResources.TableDisks | www/manager/lxc/Resources.js:77-175 | a row is a disk exactly for rootfs and the mount points, and no disk row has an editor |
| LxcResources.MemoryRendered | www/manager/lxc/Resources.js:45-57 | memory and swap are shown as format_size of the MiB count in bytes, and an undefined value as format_size of NaN |
| LxcResources.CpuLimitRendered | www/manager/lxc/Resources.js:65-68 | a limit of 0 or '' shows as unlimited, while the string '0' is truthy and shows as itself |
| LxcResources.ButtonStatus | www/manager/lxc/Resources.js:162-181 | no selection disables both buttons; otherwise Edit is disabled for a pending delete or a row without an editor and Resize for every non-disk row; a key without a row throws |
| LxcResources.EditEnabled | www/manager/lxc/Resources.js:145-151 | the enableFn: false without a selection, otherwise whether the row has an editor; a key without a row throws |
| LxcResources.EditAgrees | www/manager/lxc/Resources.js:145-181 | both ways of enabling Edit throw on the same selections and agree on rows not pending deletion |
| LxcResources.DiskButtons | www/manager/lxc/Resources.js:38-181 | on the view's rows a resizable row is never editable; memory and CPU rows are not resizable and editable exactly with their capability |
| LxcResources.RunEditor | www/manager/lxc/Resources.js:101-122 | nothing without a selection or for a row without an editor; otherwise the row's editor opens on the key with the config URL; a key without a row throws |
| LxcResources.EditButtonOpens | www/manager/lxc/Resources.js:101-181 | on a row not pending deletion Edit is enabled exactly when running the editor opens a window |
| LxcResources.RunResize | www/manager/lxc/Resources.js:124-139 | a selection opens the resize window on its key for the container, no selection does nothing |
| LxcResources.Url | www/manager/lxc/Resources.js:26-184 | without node or VM ID the view throws the matching message; otherwise it loads /api2/json/nodes/node/lxc/vmid/config |
| LxcResources.KeyCell | www/manager/lxc/Resources.js:6-20 | the key is shown as the object grid shows it, with the row's icon class when it has one |
| SshKey.Length | www/manager6/qemu/SSHKey.js:12-12 | reading length of null or undefined is a type error; a string or list has its length; a number or boolean has none |
| SshKey.OnGetValues | www/manager6/qemu/SSHKey.js:7-18 | a missing (null or undefined) key, and a truthy key that is not a string (whose trim throws), are type errors; an empty key, 0 or false is submitted as a deletion of sshkey alone; a non-empty string key is URI-encoded and the other values are kept |
| SshKey.BlankKeySubmitted | www/manager6/qemu/SSHKey.js:9-16 | the discarded trim leaves a key of white space submitted, encoded, and not deleted |
| SshKey.SshKeyPanel.constructor | www/manager6/qemu/SSHKey.js:32-36 | the key field starts empty |
| SshKey.SshKeyPanel.Values | www/manager6/qemu/SSHKey.js:32-37 | the form has the one value sshkey, the field's text |
| SshKey.SshKeyPanel.AddFromFile | www/manager6/qemu/SSHKey.js:20-27 | the file's text replaces the key |
| SshKey.SshKeyPanel.OnLoad | www/manager6/qemu/SSHKey.js:106-115 | a truthy stored key is decoded into the field; otherwise the field is unchanged |
| SshKey.Stored | www/manager6/qemu/SSHKey.js:7-18 | the server drops the key on a delete and takes a submitted key |
| SshKey.RoundTrip | www/manager6/qemu/SSHKey.js:7-115 | a key read from a file, submitted and loaded again is the same text, including the empty key |
| ProcessorEdit.OnChange | www/manager/qemu/ProcessorEdit.js:17-39 | a change sets its own count, keeps the others, and sets total cores to sockets times cores |
| ProcessorEdit.TotalConsistent | www/manager/qemu/ProcessorEdit.js:8-63 | total cores equals sockets times cores at the start and after every change |
| ProcessorEdit.TotalBounds | www/manager/qemu/ProcessorEdit.js:10-40 | within the field limits total cores is between the sockets and 4 times 128 |
| ProcessorEdit.Submitted | www/manager/qemu/ProcessorEdit.js:8-65 | a valid form submits exactly sockets, cores, numa as 0 or 1, and cpu; total cores is display-only |
| ProcessorEdit.InitialSubmits | www/manager/qemu/ProcessorEdit.js:8-65 | the initial form is valid and submits one socket, one core and numa 0 |
| ContentView.BaseUrl | www/manager/storage/ContentView.js:326-336 | the view throws for a missing node, then for a missing storage; otherwise the base URL is /nodes/node/storage/storage/content |
| ContentView.RestoreEnabled | www/manager/storage/ContentView.js:376-378 | Restore is enabled exactly for a selected record whose content is strictly backup |
| ContentView.RemoveEnabled | www/manager/storage/ContentView.js:408-410 | Remove is enabled exactly for a selected record whose content is not strictly images |
| ContentView.ButtonsOf | www/manager/storage/ContentView.js:376-410 | an image can be neither restored nor removed, a backup both, and nothing is enabled without a selection |
| ContentView.VmType | www/manager/storage/ContentView.js:380-387 | qemu when the volume id contains vzdump-qemu-, else lxc for vzdump-openvz- or vzdump-lxc-, else none |
| ContentView.ContainsInfix | www/manager/storage/ContentView.js:381-383 | a text contains every piece placed inside it |
| ContentView.BackupTypes | www/manager/storage/ContentView.js:380-387 | a vzdump-qemu- volume restores as qemu; a vzdump-lxc- or vzdump-openvz- volume as lxc unless it also contains vzdump-qemu- |
| ContentView.RunRestore | www/manager/storage/ContentView.js:379-397 | the restore window opens exactly for a recognised backup type, on the volume with its rendered text and that type |
| ContentView.RemoveRequest | www/manager/storage/ContentView.js:411-423 | Remove sends DELETE to the base URL followed by the volume id |
| ContentView.Text | www/manager/storage/ContentView.js:503-511 | a truthy text is kept, any other is rendered from the record |
| ContentView.LowerIdempotent | www/manager/storage/ContentView.js:455-465 | lower-casing twice is lower-casing once |
| ContentView.Matches | www/manager/storage/ContentView.js:455-465 | a record is kept when its lower-cased text contains the lower-cased query |
| ContentView.MatchesIgnoresCase | www/manager/storage/ContentView.js:455-465 | the search ignores case on either side, the empty query matches everything, and a text matches itself |
| ContentView.Filtered | www/manager/storage/ContentView.js:455-465 | the shown records are exactly those whose text contains the query ignoring case, never more than there were |
| ContentView.ContentStore.constructor | www/manager/storage/ContentView.js:337-348 | the store holds the records with no filter |
| ContentView.ContentStore.Search | www/manager/storage/ContentView.js:455-465 | the previous filter is cleared and the new query filters the unchanged records |
| SafeDestroy.DestroyTask | www/manager6/window/SafeDestroy.js:123-129 | type 'VM' describes qmdestroy, 'CT' vzdestroy, any other type none |
| SafeDestroy.Init | www/manager6/window/SafeDestroy.js:110-136 | the window throws without an id, then without a type, then for an unknown type; otherwise its message describes the destroy task and the label asks for the id |
| SafeDestroy.SafeDestroyWindow.constructor | www/manager6/window/SafeDestroy.js:97-103 | Remove starts disabled and nothing is sent |
| SafeDestroy.SafeDestroyWindow.OnConfirmChange | www/manager6/window/SafeDestroy.js:31-39 | Remove is enabled exactly when the typed value is strictly equal to the id |
| SafeDestroy.SafeDestroyWindow.OnRemoveClick | www/manager6/window/SafeDestroy.js:48-61 | a click sends DELETE to the window's URL |
| SafeDestroy.SafeDestroyWindow.OnSpecialKey | www/manager6/window/SafeDestroy.js:40-45 | Enter sends the DELETE exactly when Remove is enabled; other keys send nothing |
| SafeDestroy.ConfirmThenEnter | www/manager6/window/SafeDestroy.js:29-64 | after a sequence of typed values, Enter deletes exactly when the last one equals the id |
| SafeDestroy.TextIdNeverConfirmed | www/manager6/window/SafeDestroy.js:34-88 | a number field's value never strictly equals an id given as text, so such an id cannot be confirmed |
| AclView.AclAdd | www/manager5/dc/ACLView.js:9-53 | only group and user are accepted, otherwise "unknown ACL type"; the form has the path field, the group or user selector, the role selector defaulting to NoAccess, and the propagate box only without a fixed path |
| AclView.Listed | www/manager5/dc/ACLView.js:93-101 | with a fixed path only its own entries are listed; without one all entries are |
| AclView.FixedPathExact | www/manager5/dc/ACLView.js:93-101 | under a fixed path an entry is listed exactly when its path is that path |
| AclView.RenderUgid | www/manager5/dc/ACLView.js:103-109 | a group is shown with a leading '@', anything else as it is |
| AclView.GroupsMarked | www/manager5/dc/ACLView.js:103-109 | a group name gets the '@', a user name does not |
| AclView.Columns | www/manager5/dc/ACLView.js:111-140 | with a fixed path the grid shows user/group and role; without one also path first and propagate last |
| AclView.RemoveParams | www/manager5/dc/ACLView.js:153-165 | removal sends delete 1 with the path and role, plus groups or users by the entry's type; any other type throws "unknown data type" |
| AclView.AddParams | www/manager5/dc/ACLView.js:11-64 | an added entry submits the path and the role as given, the id as groups for a group and as users for a user, propagate exactly when the box is shown (1 when ticked, 0 otherwise), and nothing else |
| AclView.RemoveUndoesAdd | www/manager5/dc/ACLView.js:11-165 | on a fixed path, where the add form has no Propagate box, the removal of an entry sends the parameters its addition sent, with delete set |
| NodeTasks.StoreUrl | www/manager/node/Tasks.js:11-27 | the view throws without a node name; otherwise it pages /api2/json/nodes/node/tasks |
| NodeTasks.Params | www/manager/node/Tasks.js:32-43 | errors is always sent; userfilter exactly when not empty; vmid exactly when the filter is truthy; nothing else |
| NodeTasks.RowClass | www/manager/node/Tasks.js:84-90 | a row is marked invalid exactly when its status is truthy and not OK |
| NodeTasks.StatusText | www/manager/node/Tasks.js:156-162 | OK reads OK, any other status as ERROR followed by it |
| NodeTasks.MarkedIffError | www/manager/node/Tasks.js:84-162 | a truthy status is marked exactly when shown as an error; an empty status is shown as an error but not marked |
| NodeTasks.FalsyNotOk | www/manager/node/Tasks.js:87 | a falsy status is never OK |
| NodeTasks.ErrorShown | www/manager/node/Tasks.js:156-162 | the status reads as an error exactly when it is not OK |
| NodeTasks.TaskView.constructor | www/manager/node/Tasks.js:29-71 | no user filter, errors 0, the parameters sent from them, and View disabled |
| NodeTasks.TaskView.OnUserKeyup | www/manager/node/Tasks.js:100-103 | the user filter takes the text and a reload is pending; the sent parameters wait for it |
| NodeTasks.TaskView.OnErrorsChange | www/manager/node/Tasks.js:111-114 | the errors filter becomes 1 or 0 and a reload is pending |
| NodeTasks.TaskView.RunReload | www/manager/node/Tasks.js:49-52 | the delayed reload sends the parameters of the current filters |
| NodeTasks.TaskView.OnSelectionChange | www/manager/node/Tasks.js:167-169 | View is disabled exactly when nothing is selected |
| NodeTasks.TaskViewer | www/manager/node/Tasks.js:54-65 | the viewer opens exactly with a selection, on its first task |
| NodeTasks.FilterErrorsOfUser | www/manager/node/Tasks.js:29-114 | typing a user and ticking Only Errors, then reloading, sends errors 1 and that user, and vmid exactly with a truthy filter |
| OpenvzCreateWizard.GeneralValues | www/manager/openvz/CreateWizard.js:134-140 | confirmpw is always dropped and pool when it is falsy; every other value is kept as it is |
| OpenvzCreateWizard.PasswordValid | www/manager/openvz/CreateWizard.js:103-117 | the password field is valid when it is not empty and has at least five characters |
| OpenvzCreateWizard.ConfirmError | www/manager/openvz/CreateWizard.js:125-131 | the confirmation is refused, with "Passwords does not match!", exactly when it differs from the password |
| OpenvzCreateWizard.ConfirmValid | www/manager/openvz/CreateWizard.js:118-131 | the confirmation field is valid when it is not empty and its validator finds it equal to the password |
| OpenvzCreateWizard.PasswordsAgree | www/manager/openvz/CreateWizard.js:104-131 | a password and confirmation both accepted are equal and at least 5 characters long |
| OpenvzCreateWizard.ShortPasswordRefused | www/manager/openvz/CreateWizard.js:104-131 | a password shorter than 5 is refused even when it is confirmed correctly |
| OpenvzCreateWizard.NetworkValues | www/manager/openvz/CreateWizard.js:208-221 | bridged mode submits only netif, printed from eth0 with the bridge and firewall; otherwise only ip_address |
| OpenvzCreateWizard.OneNetworkMode | www/manager/openvz/CreateWizard.js:208-221 | exactly one of netif and ip_address is submitted, and the mode, bridge and firewall fields never are |
| OpenvzCreateWizard.NetworkPanel.constructor | www/manager/openvz/CreateWizard.js:155-206 | routed mode starts selected with the IP field enabled and bridge and firewall disabled |
| OpenvzCreateWizard.NetworkPanel.OnRoutedChange | www/manager/openvz/CreateWizard.js:162-168 | the IP field is enabled exactly when routed mode is checked |
| OpenvzCreateWizard.NetworkPanel.OnBridgedChange | www/manager/openvz/CreateWizard.js:189-197 | bridge and firewall are enabled exactly when bridged mode is checked |
| OpenvzCreateWizard.NetworkPanel.Choose | www/manager/openvz/CreateWizard.js:155-206 | choosing a mode leaves exactly that mode's fields enabled |
| OpenvzCreateWizard.Summary | www/manager/openvz/CreateWizard.js:8-303 | the summary lists exactly the values other than delete, tmplstorage and password, each once, ascending by key |
| OpenvzCreateWizard.Submit | www/manager/openvz/CreateWizard.js:305-314 | the wizard POSTs to /nodes/node/openvz every value but delete, nodename and tmplstorage |
| OpenvzCreateWizard.ConfirmAndSubmit | www/manager/openvz/CreateWizard.js:283-314 | every summary row but the node is submitted as shown, every submitted value but the password is shown, and the node shown is the one posted to |
| OpenvzCreateWizard.SubmitGeneral | www/manager/openvz/CreateWizard.js:134-314 | the confirmation is never submitted, a pool only when truthy, and the password always |
| Workspace.Workspace.constructor | www/manager/Workspace.js:14-70 | no login data, user name or token, no login window yet, nothing logged in or sent |
| Workspace.Workspace.UpdateLoginData | www/manager/Workspace.js:19-33 | the login data, token, user name and ticket are taken from the answer, the capabilities only when it has them, and onLogin is called with it |
| Workspace.Workspace.ShowLogin | www/manager/Workspace.js:36-54 | the ticket, user name and login data are cleared, onLogin is called with null, and the login window is shown, created only when there is none |
| Workspace.Workspace.OnLoginWindowDone | www/manager/Workspace.js:44-49 | the window is forgotten and the login data of the answer is taken over |
| Workspace.Workspace.OnRequestException | www/manager/Workspace.js:62-66 | exactly an answer of 401 clears the login and shows the login window; any other status changes nothing |
| Workspace.Workspace.Init | www/manager/Workspace.js:72-78 | without a ticket the login is shown; with one the state is kept and onLogin is called again when there is login data |
| Workspace.Workspace.RenewTick | www/manager/Workspace.js:80-101 | a renewal POST of the user name and the ticket as password is sent exactly when both are truthy, and nothing else changes |
| Workspace.NoRenewalAfterAuthFailure | www/manager/Workspace.js:62-101 | after a 401 the next renewal sends nothing and the login is shown |
| Workspace.RepeatedFailures | www/manager/Workspace.js:36-66 | however many failures there are, at most one login window is created, and one exactly when a 401 occurs |
| Workspace.LoginThenRenew | www/manager/Workspace.js:19-101 | after a login with a ticket and user name the renewal sends exactly those |
| Workspace.NoVnc | www/manager/Workspace.js:119 | novnc is on exactly for the text '1' |
| Workspace.ConsoleFor | www/manager/Workspace.js:116-171 | the console type, or the query's, picks the kvm, lxc, shell or upgrade console with its title and parameters; any other type shows the error text |
| Workspace.NamedTitle | www/manager/Workspace.js:123-139 | a VM name adds a suffix to the title exactly when it is truthy |
| Workspace.ShowSearch | www/manager/Workspace.js:302-303 | the panel of the root node, or of a node that groups others, shows the search tab |
| Workspace.PanelClass | www/manager/Workspace.js:287-300 | a node without a type gets the data center panel, a known type its panel, any other pvePanelConfig |
| Workspace.PanelClassKnown | www/manager/Workspace.js:287-300 | every node gets one of the listed panels or the default, qemu the VM panel and lxc the container panel |
| Workspace.StdWorkspace.constructor | www/manager/Workspace.js:183-208 | nothing is shown and nothing is selected |
| Workspace.StdWorkspace.OnSelectionChange | www/manager/Workspace.js:285-311 | an empty selection empties the content and keeps the selected node; otherwise the first node becomes selected and its panel is shown, with search on the root or a group |
| Workspace.UserInfo | www/manager/Workspace.js:241-253 | empty exactly without a user name, otherwise the logged-in message with the name quoted |
| Workspace.VersionText | www/manager/Workspace.js:255-268 | a version line exactly when the version is known: version-release/repoid |

## Left out

- HTTP requests and their answers (`API2Request`, `Ext.Ajax`, `load` callbacks, form submission, the upload window's XHR): a request is recorded as its verb, URL and parameters, and an answer is a parameter; nothing is sent or awaited.
- Timers and debouncing (`Ext.TaskManager`, `Ext.util.DelayedTask`): a delayed reload is a pending flag that a separate step runs; the 15-minute renewal period is not modelled.
- Cookies, the state provider and the browser's history: stored state is a map handed in and handed back.
- Widget construction, layout, column widths, HTML markup and DOM events: widgets are assumed rendered, so the `me.rendered` guards of the OpenVZ wizard always pass; field enabling and visibility are booleans.
- Helpers defined outside these files are parameters: `PVE.Parser` print and parse functions (mount points, IP config, volumes, LXC features, OpenVZ network interfaces), `PVE.Utils` (`forEachBus` and its order, `delete_if_default`, `format_size`, `format_boolean`, `render_kvm_startup`, `render_storage_content`, `format_task_description`, `unknownText`, `noneText`, `checked_command`), `htmlEncode`, `encodeURIComponent`/`decodeURIComponent`, `parseBoolean` and the `IP4_match`/`IP6_*` regular expressions.
- `PVE.Utils.authOK` and `authClear` are reading and clearing the workspace's ticket; the cookie behind them is not modelled.
- The `onLogin` hook of the standard workspace (resource store updates and the version request) is not modelled; its user and version texts are (`Workspace.UserInfo`, `Workspace.VersionText`).
- Floating point: numbers are integers, and `ToNumber` reads decimal integer text only (no fractions, exponents or hexadecimal).
- Case-insensitive matching folds ASCII letters only.
- The ExtJS store internals (`DiffStore` merging, buffered paging, grouping, and the sorters of the views other than the resource grid's sort by type and the OpenVZ wizard's summary sort): the object grid's store is a map from keys to values, and the engine's own sort order is replaced by a stable sort.
- `Ext.Object.each` order is a parameter (a sequence of the keys) where the order is visible; that JavaScript visits integer-like keys first, in ascending order, is not modelled.
- `Ext.isDefined` is modelled as presence of the key; a key present with the value undefined is not distinguished.
- Prototype-level defaults shared between instances (the feature map of the features panel, the mount point data, the controller selector's config): each instance has its own state, so the aliasing between instances is not modelled.
- Objects are values: `setVMConfig` keeping a shallow copy rather than the caller's object is what every call does here.
- The grid store's records are values: `store.add` in `updateGrid` (www/manager/grid/ResourceGrid.js:119-121 and 145-146) adds the resource store's own record objects, so a later `set` and `commit` on a grid record changes the shared resource record too; `ResourceGrid.ResourceGrid.MergeItems` and `ResourceGrid.ResourceGrid.UpdateGrid` patch the grid's copy, and that sharing is not modelled.
- The storage content view's store sorter (www/manager/storage/ContentView.js:344-347) is not modelled: `ContentView.Filtered` keeps the records in the order given.
- Keystroke masks of the `VTypes` and their messages are left out; the validators' texts are display-only.
- Type errors of the source (reading a property of undefined) are modelled as an error result `TypeError`, except in the one place listed next; the exception's text and its propagation are not.
- ResourceGrid.TextFilterMatch: a defined search field that is not text (null or a number) is skipped, where `toLowerCase` in the source throws; the resource store's name, storage, node, type and text fields hold strings, and the gathering pass is kept free of an error path.
- The File API, drag and drop and the `FileReader` availability check of the SSH key panel: a read file is the text handed to `AddFromFile`.
- The firewall configuration object nested inside OpenVZ network interfaces is passed to the printer as given.
- The row properties `never_delete` and `group` of the LXC resources view, and the unused `getObjectValue` call in its `renderKey`, do not change what the grid shows and are left out.
- The CPU and memory edit windows the LXC resources view opens, and the resize window, are named, not modelled.
- `setValues` merging of loaded values into a form's existing fields is modelled as replacing the fields the load names.
- The wizard's `getValues` collects the values of all its panels; the model takes that collection as given.
- The lxc mount point panel's storage-type listener and the crash of the root file system's bind-mount branch are left out; the unused-disk order is the order of the given configuration keys.
- The LXC resources view's Edit button is enabled by both its `enableFn` and the selection listener (`LxcResources.EditAgrees` states where the two agree); only the rules, not their interplay in time, are modelled.
- A form field that a load leaves unset reads back as its own initial value: the round trips `StorageEdit.LoadThenSubmit` and `HaResourceEdit.LoadThenSubmit` speak only of loaded values that have a field, and say nothing about such fields.
- LxcOptions.Rows: states only which rows exist; their editors are stated by `LxcOptions.EditorsNeedCaps` and the tty default by `LxcOptions.TtyRoundTrip`; the other headers, defaults and renderers are as written but not stated.
- LxcResources.BaseRows: states only which rows exist; editors, disks and renderers are stated by the lemmas about the table.
- LxcFeatures.FeaturesPanel.FillForm: the options are listed in the order given, because the source's sort comparator does not define an order (see Findings); `LxcFeatures.FeaturesPanel.FillFormSorted` lists them sorted.
- The discarded `replace` and `trim` results in the DNS load and the SSH key submit are kept as written: the model shows their lack of effect (`DNS.LoadKeepsSeparators`, `DNS.LoadLeadingSpace`, `SshKey.BlankKeySubmitted`).

## Findings

| source | as written | input that shows it | evidently intended | confidence | as-written member | corrected member |
|---|---|---|---|---|---|---|
| www/manager/lxc/FeaturesEdit.js:25 | the sort comparator returns the boolean a.id < b.id, which reads as 1 or 0 and never as a negative number | options with ids "a" and "b": compared one way the answer is 1 ("after"), the other way 0 ("equal"), so the order depends on the engine | a signed comparison, ordering the options by id | not executed | LxcFeatures.ComparatorInconsistent | LxcFeatures.FeaturesPanel.FillFormSorted |
