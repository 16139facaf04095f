# vp-uml-export, modelled in Dafny

vp-uml-export reads a UML class diagram that Visual Paradigm exported to
a spreadsheet and turns it into DataMapper resource classes. This project
models its core and proves properties of that model:

* **The reader's row shaping** (`reader.dfy`, module `Reader`). Row 1 of
  the worksheet holds headers, read left to right up to the first blank
  cell, with the column name advanced by `String#succ`. Every later row
  is read as the range `"A<n>:<last><n>"` and turned into a
  header-indexed row hash. The hash keeps only the worthy headers, stores
  an empty header under `ArtifactType`, truncates floats to integers, and
  lets a later column overwrite an earlier one. Reading stops at the
  first row whose cells are all blank.
  * The worksheet is a value: the cells the spreadsheet application
    would return.
  * Range strings are parsed the way the spreadsheet reads them. This
    pins down what happens with one header (a one-cell range, whose
    value cannot be flattened) and with none (a malformed range).
* **The artifact base** (`artifact.dfy`, module `Artifact`). An identity
  of four keys is copied from the row. Identity is relaxed: two
  artifacts are the same when their ids agree *or* their model ids agree.
  Subclasses are recorded in a class-level registry as they are defined.
* **The entities** (`attribute.dfy`, `model.dfy`, modules `Attributes`
  and `Model`).
  * Attributes are values.
  * Packages, classes, associations and generalizations are Dafny
    classes whose fields the linking methods update in place:
    * packages collect classes;
    * classes collect attributes and associations and take a package and
      a superclass;
    * associations and generalizations replace their raw end ids by
      class references.
* **The diagram** (`diagram.dfy`, module `Diagrams`). The constructor
  checks the arguments' types. It records one header name per artifact
  subclass, with the `Class` ↔ `Klass` edge case, and makes one empty
  collection per kind.
  * `populate!` runs three passes:
    1. Sort every row into the collection of its kind.
    2. Fit classes into packages, give them their attributes, and link
       associations.
    3. Assign superclasses.
  * The end state is stated column by column in terms of the input rows
    (`Diagram.Populated`).
  * Removed instance variables are `Option` fields that become `None`.
* **The writer's text generation** (`writer.dfy`, module `Writer`). It
  produces the property lines of a class's attributes and the `has` /
  `belongs_to` lines of its associations, with the writer's indentation
  and the final line feed chopped.
  * Each generating method yields the text, or the error Ruby would
    raise on a nil or non-string value.
  * Each method is proved equal to a specification function. The
    lemmas about that function give the line structure and the
    has/belongs decision.
* **The String and Fixnum extensions** (`extensions.dfy`, module
  `Extensions`): `sanitize_filename`, `unindent`, `add_indentation`,
  `add_indentation!`, `spaces`, `tabs`. `values.dfy` (module `Values`)
  holds the shared scalar values, rows and helpers.

Ruby's `==` on row values is datatype equality. Ruby's `!=` and `==` on
model objects is reference equality. `eql?` on an artifact is `Eql`.

## Model

| member | source | states |
|---|---|---|
| Artifact.FromRow | model/artifact.rb:15-22 | ID, Model ID, Parent ID and Name are copied from the row; an absent key gives nil |
| Artifact.IsMyIdEither | model/artifact.rb:36-38 | `is_my_id?(x)` holds exactly when the id or the model id equals `x`; an artifact without an id matches nil |
| Artifact.EqlReflexive | model/artifact.rb:28-30 | every artifact `eql?` itself |
| Artifact.EqlSymmetric | model/artifact.rb:28-30 | `eql?` is symmetric |
| Artifact.EqlOnEitherKey | model/artifact.rb:28-30 | equal ids suffice even when the model ids differ, and vice versa; `eql?` means one of the other artifact's keys is one of this one's ids |
| Artifact.EqlNotTransitive | model/artifact.rb:28-30 | the relaxed rule is not transitive: three identities where a~b and b~c but not a~c |
| Artifact.IsParentByIsMyId | model/artifact.rb:43-45 | `a.is_parent?(p)` is exactly `p.is_my_id?(a.parent_id)` |
| Artifact.SubclassRegistry.constructor | model/artifact.rb:56-58 | the registry is nil before any subclass is defined |
| Artifact.SubclassRegistry.Inherited | model/artifact.rb:51-53 | defining a subclass appends it to the registry, which is created empty on first use |
| Artifact.LoadOrderOnce | model/artifact.rb:51-58 | each of the five subclasses occurs exactly once in the definition order |
| Artifact.LoadModel | model/artifact.rb:51-58 | after the model files are loaded, `subclasses` lists Package, Klass, Generalization, Attribute and Association in definition order |
| Attributes.NewAttribute | model/attribute.rb:13-25 | identity from the base constructor; Visibility and Scope copied verbatim (possibly nil); Type kept when present and "[N/A]" when absent, so the type is never nil |
| Model.AbstractUnlessNo | model/class.rb:33 | a class is not abstract exactly when its Abstract value is the string "No"; a missing value or "Yes" means abstract |
| Model.Klass.constructor | model/class.rb:15-34 | identity from the row, the abstract flag from Abstract, empty attribute and association lists, nil package and superclass |
| Model.Klass.Subclassed | model/class.rb:39-41 | holds exactly when the superclass is set |
| Model.Klass.Abstract | model/class.rb:46-48 | the flag the constructor set from the row's Abstract value |
| Model.Klass.TryAddAttribute | model/class.rb:53-59 | the attributes whose Parent ID names this class are appended in input order behind the existing ones |
| Model.ChildrenAppend | model/class.rb:56-58 | the matching attributes of two lists concatenated are the matching attributes of each, concatenated |
| Model.ChildrenCount | model/class.rb:56-58 | an attribute is taken as often as it occurs in the input when its Parent ID names the class, and never otherwise |
| Model.AttributeInTwoClasses | model/class.rb:57 | with relaxed identity one attribute can be the child of two classes that `eql?` tells apart |
| Model.Klass.TryMatchPackage | model/class.rb:65-78 | `@package` becomes the last package that is this class's parent, and is unchanged if none is; every package gets the class appended once per occurrence in the list when it is the parent, and no other package changes |
| Model.LastParentAt | model/class.rb:68-77 | the package kept is the last matching one in list order |
| Model.LastParentNone | model/class.rb:68-77 | with no matching package the previous package is kept |
| Model.Package.constructor | model/package.rb:13-20 | identity from the base constructor and an empty class list |
| Model.Package.AddClass | model/package.rb:24-26 | exactly the given class is appended at the end; earlier members are unchanged and the length grows by one |
| Model.Association.constructor | model/association.rb:14-35 | raw From and To ends, the {total, from, to} multiplicity and the {from, to} aggregation kind, all taken from the row |
| Model.Scan | model/association.rb:47-55 | each end the scan returns is the starting value or a class of the list |
| Model.ScanFinds | model/association.rb:47-58 | the scan finds a from class exactly when some class matches the raw From, and likewise for To; a found class matches its raw end |
| Model.ScanUnique | model/association.rb:47-55 | when exactly one class matches each end, the scan returns those two classes |
| Model.Association.TryLink | model/association.rb:40-69 | when both ends resolve, they become the two classes and each class of the list has the association appended once if it is either end (once for a self-association); otherwise the ends stay raw and no class's association list changes |
| Model.Generalization.constructor | model/generalization.rb:13-21 | identity from the row and the raw General and Specific ends |
| Model.FirstMatchKeepsLinked | model/generalization.rb:35-38 | once an end holds a class, later comparisons never replace it |
| Model.FirstMatchAt | model/generalization.rb:35-38 | an end resolves to the first class in list order that matches its raw id |
| Model.FirstMatchNone | model/generalization.rb:35-38 | an end that no class matches keeps its raw value |
| Model.Generalization.TryAssignSuperclass | model/generalization.rb:27-46 | with both raw ends non-nil each resolves to its first matching class, else both are unchanged; the specific class's superclass becomes the general class exactly when both resolved, and no other superclass changes |
| Diagrams.CheckArguments | model/diagram.rb:46-47 | the arguments are refused exactly when the name is not a String (first) or the rows are not an Array; an empty name and an empty row list pass |
| Diagrams.HeaderNamesOfLoadOrder | model/diagram.rb:68-89 | the recorded header names are Package, Class, Generalization, Attribute, Association |
| Diagrams.HeaderAt | model/diagram.rb:68-89 | the i-th header name is that of the i-th subclass defined |
| Diagrams.Container | model/diagram.rb:215-216 | the pluralised artifact name names a collection exactly for the five header names, "Class" naming the classes; any other name, "Klass" among them, names none |
| Diagrams.Target | model/diagram.rb:205-221 | the built artifact joins a collection only when one is named and it is the collection of the built class |
| Diagrams.KlassJoinsNothing | model/diagram.rb:205-219 | the artifact name "Klass" builds a class but names no collection, so nothing is appended; with the artifact name "Package" the built class is not of the packages' kind and the model appends nothing (Ruby appends it to `@packages`, see "Left out") |
| Diagrams.ConstGet | model/diagram.rb:205-206 | each of the five artifact class names resolves to the class of that name; a name that is none of them resolves to no class |
| Diagrams.HeaderRoundTrip | model/diagram.rb:140-144 | the header name of a kind tags rows of that kind, and its (edge-case) item name resolves to that kind's class: "Class" builds a Klass |
| Diagrams.TagMatch | model/diagram.rb:130-134 | a row's ArtifactType matches a kind's header name exactly when it tags that kind |
| Diagrams.TagsAreHeaderNames | model/diagram.rb:127-150 | the recognised tags are exactly the five header names; "Klass" is not a tag |
| Diagrams.TaggedCount | model/diagram.rb:112-115 | a kind's collection holds each row tagged with it as often as it occurs, and no other row |
| Diagrams.TaggedPartition | model/diagram.rb:127-150 | each row yields at most one artifact: the five collections and the dropped rows add up to the rows |
| Diagrams.ClassesInCount | model/diagram.rb:160-163 | a package ends up holding each class whose Parent ID names it, once per occurrence of that class, and none other |
| Diagrams.LinkedToFrom | model/diagram.rb:166-168 | a class's associations come from the diagram's association list |
| Diagrams.LinkedToCount | model/diagram.rb:166-168 | a linked association appears exactly once in each class it touches and in no other |
| Diagrams.SuperOfLast | model/diagram.rb:183-185 | a class's superclass is the general class of the last generalization that resolved with it as the specific end |
| Diagrams.SuperOfSet | model/diagram.rb:183-185 | a class ends with a superclass exactly when some generalization resolved with it as the specific end |
| Diagrams.PopulatedSubclassed | model/class.rb:39-41 | after `populate!`, a class is `subclassed?` exactly when some generalization has a class as its general end and this class as its specific end |
| Diagrams.PopulatedAssociationOnce | model/diagram.rb:166-168 | after `populate!`, an association is in a class's association list exactly once when one of its two resolved ends is that class (once in all for a self-association), and not at all otherwise; the list holds only the diagram's associations |
| Diagrams.PopulatedAbstract | model/class.rb:33 | after `populate!`, a class is `abstract?` exactly when its row's Abstract value is not the String "No" |
| Diagrams.SuperOfNone | model/diagram.rb:183-185 | a class no generalization resolves to keeps its superclass |
| Diagrams.PassesCompose | model/diagram.rb:157-186 | the package/attribute pass, the association pass and the generalization pass, run from fresh classes, give each class its last parent package, its child attributes, the associations linked to it and its last resolved superclass |
| Diagrams.Diagram.constructor | model/diagram.rb:43-90 | one header name per artifact subclass in definition order; every collection empty; the rows kept |
| Diagrams.Diagram.CreateAndPack | model/diagram.rb:192-225 | the class named by the (alternate) name is built from the row and appended to the collection the artifact name names, when that collection is defined and is that class's; an undefined or removed collection takes nothing, so `("Klass", none)` appends nothing |
| Diagrams.Diagram.ProcessCurrentHeader | model/diagram.rb:124-152 | a row grows its kind's collection by one freshly built artifact, and an untagged row changes nothing |
| Diagrams.Diagram.SortRow | model/diagram.rb:112-115 | sorting one more row keeps every collection equal to the artifacts of the rows so far with that tag, in row order |
| Diagrams.Diagram.SortRows | model/diagram.rb:112-115 | after the loop every collection holds, in row order, one fresh artifact per row tagged with its kind, and no artifact twice |
| Diagrams.Diagram.ProcessArtifacts | model/diagram.rb:108-119 | each collection holds one fresh artifact per row of its kind, in row order, as its constructor left it; the rows are removed |
| Diagrams.Diagram.FitClasses | model/diagram.rb:160-163 | each package's class list grows by the classes it is parent of, in class order; each class gets its last parent package and its child attributes |
| Diagrams.Diagram.LinkClasses | model/diagram.rb:166-168 | each class's association list grows by the linked associations touching it, in order; each association's ends become what `try_link` makes of them |
| Diagrams.Diagram.RefineClasses | model/diagram.rb:157-173 | the two passes of `refine_classes`, after which the attribute and association collections are removed |
| Diagrams.Diagram.AssignClassGeneralizations | model/diagram.rb:179-186 | each generalization's ends are resolved and each class's superclass is that of the last generalization resolving to it |
| Diagrams.Diagram.RefineSorted | model/diagram.rb:157-173 | `refine_classes` on sorted rows, stated on the rows: packages hold their child classes, associations are linked, classes hold their package, attributes and associations |
| Diagrams.Diagram.AssignRefined | model/diagram.rb:179-186 | the generalization pass after `refine_classes` reaches the populated state |
| Diagrams.Diagram.Populate | model/diagram.rb:95-101 | the first call succeeds and leaves the diagram populated: rows, attributes and associations removed, packages holding their classes, classes refined, associations linked and each created once, generalizations resolved; a second call fails and changes nothing |
| Extensions.SanitizeFilename | core/extensions.rb:36-38 | the result is no longer than the input and contains none of the forbidden characters: slash, colon, asterisk, question mark, double quote, the two angle brackets, vertical bar, caret and semicolon |
| Extensions.SanitizeAppend | core/extensions.rb:36-38 | sanitizing works character by character: it distributes over concatenation |
| Extensions.SanitizeKeepsClean | core/extensions.rb:36-38 | a string is left unchanged exactly when it contains no forbidden character |
| Extensions.SanitizeIdempotent | core/extensions.rb:36-38 | sanitizing twice is sanitizing once |
| Extensions.SanitizeCounts | core/extensions.rb:36-38 | every forbidden character is deleted and every other character is kept as often as it occurs |
| Extensions.LeadingSpace | core/extensions.rb:31 | the prefix taken is the leading whitespace of the string, all of it |
| Extensions.UnindentShorter | core/extensions.rb:30-32 | unindenting never lengthens a string |
| Extensions.DedentNothing | core/extensions.rb:30-32 | with no leading whitespace nothing is removed |
| Extensions.StripPrefix | core/extensions.rb:30-32 | a line that starts with `w` is `w` followed by the result; any other line is the result unchanged |
| Extensions.DedentLines | core/extensions.rb:30-32 | removing `w` at every line start strips it from each line that starts with it and keeps every other line whole |
| Extensions.StripIndented | core/extensions.rb:30-32 | stripping `w` from lines indented by `w` gives the lines back |
| Extensions.UnindentLines | core/extensions.rb:25-32 | `unindent` removes the first line's leading whitespace from every line that starts with it and keeps every other line |
| Extensions.DedentBlock | core/extensions.rb:30-32 | removing a prefix from the start of every line undoes indenting every line by it |
| Extensions.LeadingOfBlock | core/extensions.rb:31 | the leading whitespace of a block indented by `w` is `w` |
| Extensions.UnindentIndented | core/extensions.rb:30-32 | unindenting a block whose lines were all indented by the same whitespace gives the block back |
| Extensions.Delimiter | core/extensions.rb:61-76 | `n` copies of the space or the tab character, none for a non-positive `n` |
| Extensions.Spaces | core/extensions.rb:61-67 | `n.spaces` is exactly `n` spaces |
| Extensions.Tabs | core/extensions.rb:70-76 | `n.tabs` is exactly `n` tabs |
| Extensions.IndentationIsPrefix | core/extensions.rb:43-46 | the indented string is the delimiter followed by the original string, unchanged |
| Extensions.RString.AddIndentation | core/extensions.rb:43-46 | returns the indented string and, since `insert` is destructive, leaves the receiver indented too |
| Extensions.RString.AddIndentationBang | core/extensions.rb:51-53 | the receiver becomes the delimiter followed by its old value |
| Writer.AddIndentationTo | core/writer.rb:248-250 | the string is prefixed in place by the writer's indentation |
| Writer.StripEnds | core/writer.rb:161 | `strip` leaves no whitespace or NUL at either end |
| Writer.StripIdempotent | core/writer.rb:161 | stripping twice is stripping once |
| Writer.CapitalizeEach | core/writer.rb:162 | `capitalize` upper-cases the first letter and lower-cases the rest |
| Writer.Chop | core/writer.rb:173 | `chop` removes a final CR LF pair, or else the last character; the empty string stays empty |
| Writer.ChopLineFeed | core/writer.rb:173 | chopping a text followed by a line feed gives the text back |
| Writer.LayoutTerminated | core/writer.rb:158-173 | lines each ending in a line feed, all but the first indented, are their bodies joined by line feed plus indentation, with a line feed at the end |
| Writer.PropertyOf | core/writer.rb:161-163 | a property line exists exactly when the name, type and visibility are Strings; otherwise the first missing method (`strip`, `capitalize`, `to_sym`) is raised |
| Writer.PropertiesEach | core/writer.rb:158-170 | the attributes give property lines exactly when each of them is writable, one per attribute in order |
| Writer.PropertiesFirstFailure | core/writer.rb:158-170 | the first attribute that cannot be written decides the error |
| Writer.AttributesTextJoined | core/writer.rb:149-174 | the attribute text is the property lines in order, joined by line feed and indentation, with no final line feed; no attributes give "" |
| Writer.AttributesTextLines | core/writer.rb:149-174 | the attribute text of `n` attributes holds exactly `n - 1` line feeds |
| Writer.PropertyLine | core/writer.rb:161-167 | one property line with its line feed, indented unless it is the first |
| Writer.AppendProperty | core/writer.rb:166-169 | appending a property line keeps the output equal to the layout of the lines written so far |
| Writer.WriteAttributesFor | core/writer.rb:149-174 | a nil class raises "Class not provided!"; otherwise the result is the attribute text of the class's attributes, or the first error |
| Writer.HasOf | core/writer.rb:197-201 | a `has` line exists exactly when the far end is a class; otherwise `name` is missing |
| Writer.BelongsOf | core/writer.rb:220-224 | a `belongs_to` line exists exactly when the near end is a class; otherwise `name` is missing |
| Writer.Contribution | core/writer.rb:194-232 | each association contributes at most one `has` line and at most one `belongs_to` line |
| Writer.ContributionHas | core/writer.rb:194-206 | an association to another class that is not `eql?` this one, with a To multiplicity, gives exactly one `has` line naming the far class |
| Writer.RenderHasCount | core/writer.rb:197-198 | the count is "1" when the To multiplicity is the Integer 1 and "n" otherwise |
| Writer.ContributionNone | core/writer.rb:194-220 | no To multiplicity and no `eql?` far end give no line |
| Writer.ContributionSelf | core/writer.rb:194-220 | an association to this very class gives no `has` line and one `belongs_to` line |
| Writer.ContributionBoth | core/writer.rb:194-232 | a far class that is another object but `eql?` this one gives a `has` line and a `belongs_to` line |
| Writer.ContributionUnresolved | core/writer.rb:200-223 | an unresolved end that a line must name raises NoMethodError(`name`) |
| Writer.BelongsCommentGuard | core/writer.rb:223-224 | the `belongs_to` comment is guarded by the near class's name but prints the association's name |
| Writer.GroupsAppend | core/writer.rb:191-233 | the lines of a concatenation of associations are the lines of each part, concatenated |
| Writer.GroupsSucceed | core/writer.rb:191-233 | the associations give their lines exactly when each of them does |
| Writer.AssociationsFirstFailure | core/writer.rb:191-233 | the first association that fails decides the error |
| Writer.AssociationsTextJoined | core/writer.rb:181-244 | each group's text is its lines in order, joined by line feed and indentation, with the last line feed chopped |
| Writer.JoinLineFeeds | core/writer.rb:207-212 | `n` single-line bodies joined by the separator hold `n - 1` line feeds |
| Writer.HasLine | core/writer.rb:204-212 | one `has` line with its line feed, indented unless it is the first of its group |
| Writer.BelongsLine | core/writer.rb:223-229 | one `belongs_to` line with its line feed, indented unless it is the first of its group |
| Writer.AppendHas | core/writer.rb:194-216 | appending an association's `has` line, when due, keeps the output and the count equal to the layout of the lines due so far |
| Writer.AppendBelongs | core/writer.rb:220-232 | appending an association's `belongs_to` line, when due, keeps the output and the count equal to the layout of the lines due so far |
| Writer.WriteAssociations | core/writer.rb:191-244 | the two texts are those of the association list, or the first error |
| Writer.WriteAssociationsFor | core/writer.rb:181-244 | a nil class raises "Class not provided!"; otherwise the result is the association text of the class's associations |
| Values.ParseNatToString | core/reader.rb:100 | a row number interpolated into a range string reads back as itself |
| Reader.ColumnIndexOfName | core/reader.rb:126-128 | every column index has a name made of capital letters that reads back as the index |
| Reader.ColumnNameOfIndex | core/reader.rb:126-128 | every column name is the name of its index |
| Reader.SuccNext | core/reader.rb:128 | `succ!` on a column name gives the next column's name: "Z" then "AA", "AZ" then "BA" |
| Reader.BuildRangeRefs | core/reader.rb:99-101 | `build_range` writes the two cell references with a colon between them |
| Reader.ParseBuildRange | core/reader.rb:99-101 | a range built from two column names and positive rows reads back as those two corners |
| Reader.ParseOneRef | core/reader.rb:120 | a single cell reference reads as a one-cell range |
| Reader.ReadHeaderCell | core/reader.rb:120 | reading "<column>1" gives that header cell |
| Reader.HeaderCellsAre | core/reader.rb:117-129 | the headers are the cells of row 1 left to right, none blank, and the cell after them is blank |
| Reader.Reader.constructor | core/reader.rb:21-49 | the reader over a worksheet starts with its headers and bounds set up |
| Reader.Reader.InitHeadersAndBounds | core/reader.rb:106-133 | the header cells are appended to the headers; the first column is "A" again and the last column names the last header, or is nil when there is none |
| Reader.ReadRowIs | core/reader.rb:179-183 | with two or more headers a row reads as its cells over the header columns; with one the value cannot be flattened; with none the range string is refused |
| Reader.ArtifactsNarrow | core/reader.rb:179-183 | with fewer than two headers `parse_artifacts` fails; with one it raises NoMethodError(`flatten`) |
| Reader.CellValue | core/reader.rb:148-149 | a float cell is stored as the integer it truncates to; text is stored as it is |
| Reader.StoredName | core/reader.rb:153 | the empty header is stored under "ArtifactType", any other text header under itself, and a header that is not a string raises NoMethodError(`empty?`) |
| Reader.RowDataSucceeds | core/reader.rb:144-158 | a row hash exists exactly when every header is a string |
| Reader.RowDataKeysAre | core/reader.rb:153-157 | a key is in the row hash exactly when it is worthy and is some header's stored name |
| Reader.RowDataKeys | core/reader.rb:154-157 | every key of the row hash is a worthy header |
| Reader.RowDataLatest | core/reader.rb:157 | the value under a name is that of the last column with that name |
| Reader.RowDataFails | core/reader.rb:153 | a header that is not a string stops `get_row_data` |
| Reader.Reader.GetRowData | core/reader.rb:139-162 | the loop builds exactly the row hash of the row's values over the headers |
| Reader.ArtifactsRowAt | core/reader.rb:172-189 | the i-th row returned is the row hash of worksheet row `2 + i`, which is not blank |
| Reader.ArtifactsEnd | core/reader.rb:184 | the row after the last one returned is blank |
| Reader.Reader.ParseArtifacts | core/reader.rb:168-193 | the loop returns exactly the row hashes from row 2 up to the first blank row, or the first error |

## Left out

- The spreadsheet application (WIN32OLE) is not modelled. Opening the workbook, the file-exists check, the diagram name in cell C2 (`get_diagram_data`), `perform_cleanup` and `ole_methods` are all left out. The worksheet is a value, and `Range(...).Value` is a function of it.
- A range is modelled only as a cell reference or two references joined by a colon, the forms `build_range` writes. Other spreadsheet range syntax is not.
- `write_class` and `output_datamapper_resources` are left out. They create directories and files, read the clock and print a heredoc.
- `core/processor.rb` and `boot/main.rb` are pipeline wiring and I/O only, so they are not modelled.
- `const_get`, `instance_variable_set`, `instance_variable_get`, `remove_instance_variable` and `.en.plural` are not modelled as metaprogramming:
  - the artifact kinds are the datatype `Kind`;
  - there is one field per kind;
  - `const_get` is `ConstGet`;
  - a removed collection is `None`;
  - `get_instance_var_if_def` is reading that `Option`.
- `String#underscore` and `String#camelize` implement regex-based inflection. The writer takes `underscore` as a function parameter, and `camelize` is not used by the modelled code.
- `Extensions.UnindentLines`: stated for a block whose leading whitespace stays within the first line. When the first line is blank, `\A\s*` runs over line feeds; that case is covered only by the definition of `Unindent`.
- Floating point is not modelled: a float cell carries the integer that `to_i` gives.
- `Writer.CapitalizeEach`: `capitalize` and `strip` are modelled on ASCII letters and ASCII whitespace only.
- `Writer.AttributesTextJoined`: assumes the last visibility does not end in a carriage return. Otherwise `chop` would remove CR LF together.
- `Writer.AssociationsTextJoined`: makes the same assumption about the last line of each group.
- `Diagrams.Diagram.AssignClassGeneralizations`: requires the generalization ends to be still raw. They are raw after `process_artifacts`, which is the only way `populate!` reaches this pass.
- `Writer.WriteAssociationsFor`: it reads each association's name, To multiplicity and ends once, before the loop. The loop changes none of them.
- Concurrency is not modelled; the program is single-threaded.
- `Diagrams.ConstGet`: a name outside the five artifact classes raises NameError in Ruby (or names some other constant of the module); the model returns None. `process_current_header` never passes such a name, since every header's item name resolves (`Diagrams.HeaderRoundTrip`).
- `Diagrams.Diagram.CreateAndPack`: for a name outside the five artifact classes the model appends nothing, where Ruby raises NameError from `const_get`. When the artifact name names the collection of another class than the one built (`("Package", "Klass")`), Ruby appends that object to the other collection; the model's collections are typed, so it appends nothing. `process_current_header`, its only caller, passes neither: each header name names its own kind's collection and its item name builds that kind (`Diagrams.HeaderRoundTrip`).
- The model follows the code here:
  - a class joins every matching package, and `@package` ends as the last one;
  - `initialize` checks only the argument types;
  - a second `populate!` raises, because the rows were removed.
