# WSDL code generator: writer core

This project models the writer of a code generator that turns a WSDL
document, and the XML schemas inside it, into Rust source for a SOAP client.
The writer walks the parsed document and emits text into five *sections*:
the root preamble, and the modules `types`, `messages`, `ports` and
`bindings`. At the end it concatenates the sections into one output file.

Each section has a staging buffer, called a *mod writer*, with four parts:

- a *final* text;
- a stack of per-level buffers;
- a *delayed* buffer, which is an in-memory cursor;
- a record of the type aliases already queued.

The generator keeps one nesting *level*, shared by all sections.

- A write at level 0 goes to the final text.
- A write at level `L > 0` goes to stacked buffer `L - 1`. The text is dropped when that buffer does not exist.
- Raising the level pushes at most one empty buffer.
- Returning to level 0 pops the stack onto the final text, innermost buffer first.

So a struct nested inside another struct is emitted before the struct that
contains it.

The delayed buffer collects text that follows an interface or a binding:

- the type aliases of an interface's messages;
- the SOAP envelope wrappers of a binding.

Flushing the delayed buffer copies everything ever queued in it. It does not
clear the buffer.

The model has three layers:

- **Values** (modules `Cursors`, `Staging`, `Generator`, `Layering`): each
  operation is a pure function over a value of the state.
  - A `Stage` is one section's staging buffer.
  - A `Gen` is the whole generator: current section, level, target
    namespace, and the five stages.
  - Every emitter of the source is a function from `Gen` to `Gen`.
  - The XML tree is a `Node` datatype (module `Nodes`).
  - Type resolution and keyword shielding are in `TypeResolver`.
  - The text templates are in `Templates`.
- **Objects** (modules `ModWriters`, `FileWriters`): the classes
  `ModWriter` and `FileWriter` update their fields in place, as the source
  does. Each method's `ensures` states that its new state is the matching
  function of the old state.
- **Properties** (modules `Staging`, `Layering`, `RunStates`, `Properties`,
  `EmitterRules`, `TypeResolver`): lemmas about the value functions. They cover:
  - the write routing and the level discipline;
  - LIFO flushing;
  - the delayed buffer that is re-emitted and never cleared;
  - de-duplication of queued aliases until a reset;
  - the fixed type table, including its unreachable `xs:time` arm;
  - the field, return-clause and argument rules of the emitters;
  - a whole-document invariant: every section stays *settled* between
    top-level constructs and is only ever appended to.

## Model

| member | source | states |
|---|---|---|
| Cursors.Cursor.Write | code_generator/src/writer.rs:831-835 | A write lands at the cursor position: the written range holds `buf`, the text before the position is kept, the text after the written range is kept, and the position moves behind `buf` |
| Cursors.WriteAtEndAppends | code_generator/src/writer.rs:831-835 | A cursor at the end of its text appends: writing is concatenation, and the cursor stays at the end |
| Cursors.WriteAtStartOverwrites | code_generator/src/writer.rs:791-802 | A cursor rewound to 0 overwrites the first `\|buf\|` characters of the queued text (bytes in the source, see "## Left out"); queued text that differs there is lost |
| Nodes.GetSomeAttribute | code_generator/src/writer.rs:287-292 | None exactly when no attribute has the name; otherwise the value of the first attribute with that name |
| Nodes.FindChild | code_generator/src/writer.rs:238-240 | None exactly when no child has the tag; otherwise the first child with that tag |
| TypeResolver.SplitType | code_generator/src/writer.rs:313-318 | The result has no `:`, is a suffix of the input and is preceded by a `:` when shorter than the input |
| TypeResolver.SplitAfterLastColon | code_generator/src/writer.rs:313-318 | The text after the last `:` is kept exactly, for any prefix; a name without `:` is kept whole |
| TypeResolver.FetchTypeResolves | code_generator/src/writer.rs:301-311 | A prefix before `:` does not matter; every primitive of the table maps to its fixed Rust type; every other name maps to its Pascal casing |
| TypeResolver.FetchTypeTable | code_generator/src/writer.rs:301-311 | On a name without prefix, FetchType agrees with the primitive table and otherwise gives the Pascal casing |
| TypeResolver.TimeIsNotPrimitive | code_generator/src/writer.rs:301-311 | The `xs:time` arm never matches: `xs:time` resolves to the Pascal casing of `time`, like a user type |
| TypeResolver.ShieldReservedNames | code_generator/src/writer.rs:394-399 | The result is never `type`; `type` becomes `rs_type`; every other name is kept |
| TypeResolver.ShieldCollides | code_generator/src/writer.rs:394-399 | Shielding maps `type` and `rs_type` to the same field name |
| Staging.UnwindPush | code_generator/src/writer.rs:782-789 | The buffer pushed last comes first in the unwound text |
| Staging.FlushBuffersUnwinds | code_generator/src/writer.rs:782-789 | Flushing empties the stack and appends every buffer to the final text, last pushed first |
| Staging.WriteLands | code_generator/src/writer.rs:817-829 | At level 0 the text is appended to the final text; at level `L` it is appended to buffer `L-1` and no other buffer; it is dropped when that buffer is missing; level, delayed buffer and record are unchanged |
| Staging.SetLevelShape | code_generator/src/writer.rs:804-815 | Level 0 empties the stack onto the final text; any other level keeps the buffers and pushes one empty buffer exactly when the stack is lower than the level |
| Staging.UnitStepsKeepReady | code_generator/src/writer.rs:157-163 | Raising or lowering the level by one keeps a buffer for every open level, so a write at the current level lands |
| Staging.JumpDropsWrites | code_generator/src/writer.rs:804-829 | Jumping from level 0 to level 2 leaves level 2 without a buffer, and a write there is dropped |
| Staging.FlushDelayedReemits | code_generator/src/writer.rs:791-802 | At level 0 a flush appends everything queued and does not clear it, so a later flush emits it again before newer text |
| Staging.FlushDelayedCursor | code_generator/src/writer.rs:791-802 | With a buffer for the level, the flush leaves the cursor at the end; without one, nothing is copied and the cursor is rewound to 0 |
| Staging.NewStageShape | code_generator/src/writer.rs:741-773 | A new stage is at level 0 and empty; a module section starts with `pub mod <name> {` and the module header, and the root section starts empty |
| Staging.ReadForOutputCloses | code_generator/src/writer.rs:775-780 | The output of a module section is its final text followed by the closing brace; the root section gets no brace |
| ModWriters.ModWriter.constructor | code_generator/src/writer.rs:741-760 | The new writer's state is the new stage of its section |
| ModWriters.ModWriter.PrintModHeader | code_generator/src/writer.rs:762-766 | Appends the module opening and header lines at level 0 |
| ModWriters.ModWriter.PrintHeader | code_generator/src/writer.rs:768-773 | Appends the import line at level 0 |
| ModWriters.ModWriter.PrintFooter | code_generator/src/writer.rs:775-780 | The state after closing the module, as the footer function gives it |
| ModWriters.ModWriter.FlushBuffers | code_generator/src/writer.rs:782-789 | The loop pops every buffer onto the final text, innermost first, and leaves the stack empty |
| ModWriters.ModWriter.FlushDelayedBuffer | code_generator/src/writer.rs:791-802 | The state after the flush, as the staging function gives it |
| ModWriters.ModWriter.SetLevel | code_generator/src/writer.rs:804-815 | The state after the level change, as the staging function gives it |
| ModWriters.ModWriter.Write | code_generator/src/writer.rs:817-829 | The state after the write, as the staging function gives it |
| ModWriters.ModWriter.DelayedWrite | code_generator/src/writer.rs:831-835 | The delayed cursor after writing the text at its position |
| ModWriters.ModWriter.ReadForOutput | code_generator/src/writer.rs:837-841 | Closes the module and returns the whole final text |
| ModWriters.ModWriter.SeenType | code_generator/src/writer.rs:843-845 | Appends the text to the record |
| ModWriters.ModWriter.ResetDefinedTypes | code_generator/src/writer.rs:847-849 | Empties the record |
| ModWriters.ModWriter.HaveSeenType | code_generator/src/writer.rs:851-853 | True exactly when the text is in the record |
| FileWriters.FileWriter.constructor | code_generator/src/writer.rs:45-78 | A fresh writer for each of the five sections; the root section is current, at level 0, with no namespace |
| FileWriters.FileWriter.Write | code_generator/src/writer.rs:112-116 | Writes to the current section at the shared level |
| FileWriters.FileWriter.DelayedWrite | code_generator/src/writer.rs:118-122 | Queues the text in the current section |
| FileWriters.FileWriter.FlushDelayedBuffer | code_generator/src/writer.rs:124-128 | Flushes the current section's delayed buffer |
| FileWriters.FileWriter.SeenType | code_generator/src/writer.rs:130-134 | Records the text in the current section |
| FileWriters.FileWriter.ResetDefinedTypes | code_generator/src/writer.rs:136-140 | Empties the current section's record |
| FileWriters.FileWriter.HaveSeenType | code_generator/src/writer.rs:142-148 | The current section's answer |
| FileWriters.FileWriter.SetLevel | code_generator/src/writer.rs:150-155 | Sets the shared level and the level of the current section |
| FileWriters.FileWriter.IncLevel | code_generator/src/writer.rs:157-159 | Sets the level one higher |
| FileWriters.FileWriter.DecLevel | code_generator/src/writer.rs:161-163 | Sets the level one lower |
| FileWriters.FileWriter.CheckSection | code_generator/src/writer.rs:401-407 | Makes the target section current and changes nothing else |
| FileWriters.FileWriter.PrintHeader | code_generator/src/writer.rs:165-175 | Writes the file preamble |
| FileWriters.FileWriter.PrintElement | code_generator/src/writer.rs:229-285 | The state the element emitter computes |
| FileWriters.FileWriter.PrintComplexElement | code_generator/src/writer.rs:320-355 | The state the struct emitter computes |
| FileWriters.FileWriter.PrintStructBody | code_generator/src/writer.rs:321-354 | The state after the struct body, one level deeper |
| FileWriters.FileWriter.PrintSequence | code_generator/src/writer.rs:357-359 | The state after every child element |
| FileWriters.FileWriter.PrintComplexContent | code_generator/src/writer.rs:361-379 | The state after the extension and the sequences |
| FileWriters.FileWriter.PrintExtension | code_generator/src/writer.rs:381-392 | The state after the base-type field |
| FileWriters.FileWriter.PrintXsd | code_generator/src/writer.rs:200-218 | The state after the schema |
| FileWriters.FileWriter.PrintXsdChild | code_generator/src/writer.rs:207-217 | The state after one schema child |
| FileWriters.FileWriter.PrintMessage | code_generator/src/writer.rs:409-429 | The state after the message struct |
| FileWriters.FileWriter.PrintPart | code_generator/src/writer.rs:431-448 | The state after the part field |
| FileWriters.FileWriter.PrintPortType | code_generator/src/writer.rs:450-466 | The state after the interface trait |
| FileWriters.FileWriter.PrintOperations | code_generator/src/writer.rs:459-460 | The state after every operation |
| FileWriters.FileWriter.PrintOperation | code_generator/src/writer.rs:509-596 | The state after one trait method |
| FileWriters.FileWriter.QueuePortTypes | code_generator/src/writer.rs:598-617 | The state after queueing the aliases |
| FileWriters.FileWriter.QueueOnce | code_generator/src/writer.rs:601-609 | The state after queueing one alias |
| FileWriters.FileWriter.PrintBinding | code_generator/src/writer.rs:468-493 | The state after the binding |
| FileWriters.FileWriter.PrintBindingOperations | code_generator/src/writer.rs:488-489 | The state after every binding operation |
| FileWriters.FileWriter.PrintDefaultConstructor | code_generator/src/writer.rs:495-500 | Writes the `Default` implementation |
| FileWriters.FileWriter.PrintBindingOperation | code_generator/src/writer.rs:646-737 | The state after one binding method and its wrappers |
| FileWriters.FileWriter.PrintDefinitions | code_generator/src/writer.rs:189-198 | The state after every child of the definitions |
| FileWriters.FileWriter.PrintDefinition | code_generator/src/writer.rs:191-197 | The state after one child of the definitions |
| FileWriters.FileWriter.Print | code_generator/src/writer.rs:177-187 | The state after dispatching one node |
| FileWriters.FileWriter.ProcessDocument | code_generator/src/writer.rs:80-95 | The state after the preamble and every node of the document |
| Generator.Mods.Put | code_generator/src/writer.rs:113-115 | The routed section holds the new stage |
| Properties.UpdateGet | code_generator/src/writer.rs:112-148 | Updating the current section's stage leaves each of the other four sections' stages as they were |
| Generator.PrintElement | code_generator/src/writer.rs:229-285 | Printing an element ends at the level it started at, in the same section, with the same namespace |
| Generator.PrintComplexElement | code_generator/src/writer.rs:320-355 | Printing a struct ends at the level it started at, in the same section, with the same namespace |
| Generator.StructBody | code_generator/src/writer.rs:321-354 | The struct body keeps level, section and namespace |
| Generator.PrintSequence | code_generator/src/writer.rs:357-359 | A sequence keeps level, section and namespace |
| Generator.SequenceChildren | code_generator/src/writer.rs:357-359 | Every prefix of a sequence keeps level, section and namespace |
| Generator.PrintComplexContent | code_generator/src/writer.rs:361-379 | Complex content keeps level, section and namespace |
| Layering.ElementWrites | code_generator/src/writer.rs:229-285 | At level `L >= 1` an element adds its layers to the stack from depth `L-1`; a nested struct goes one depth further |
| Layering.ElementAfter | code_generator/src/writer.rs:229-285 | An element printed after other layers merges its layers with theirs |
| Layering.ComplexWrites | code_generator/src/writer.rs:320-355 | At level `L >= 1` a struct adds its header, fields, nested structs and brace as layers from depth `L` |
| Layering.ComplexAtTop | code_generator/src/writer.rs:320-355 | At level 0 a struct leaves the stack empty, and its whole text lands in the final text, nested structs innermost first |
| Layering.ElementAtTop | code_generator/src/writer.rs:229-285 | At level 0 an element appends its whole struct, or its type alias, or nothing, to the final text |
| Layering.ElementKeepsReady | code_generator/src/writer.rs:229-285 | Printing an element at any level keeps a buffer for every open level |
| Layering.NestedKeepsReady | code_generator/src/writer.rs:229-285 | Below level 0 an element keeps a buffer for every open level |
| Layering.StructWrites | code_generator/src/writer.rs:321-354 | The body of a struct, one level deeper, adds exactly the struct's layers |
| Layering.SequenceWrites | code_generator/src/writer.rs:357-359 | A sequence adds the merged layers of its child elements, in document order |
| Layering.ChildrenWrite | code_generator/src/writer.rs:357-359 | The first `k` children of a sequence add the merged layers of those children |
| Layering.ContentWrites | code_generator/src/writer.rs:361-379 | Complex content adds the flatten line, the base field, the extension's sequence and its own sequences as layers |
| Layering.ExtensionAfter | code_generator/src/writer.rs:381-392 | The base of an extension is one field line of the base type |
| Properties.WriteKeeps | code_generator/src/writer.rs:112-116 | On a settled state a write appends to the current section's final text only |
| Properties.DelayedWriteKeeps | code_generator/src/writer.rs:118-122 | On a settled state a delayed write appends to the current section's delayed text only |
| Properties.FlushDelayedKeeps | code_generator/src/writer.rs:124-128 | On a settled state a flush appends the whole delayed text to the final text and keeps the delayed text |
| Properties.QueueOnceKeeps | code_generator/src/writer.rs:601-609 | An alias is queued and recorded exactly when it was not recorded; the final text does not change |
| Properties.QueuePortTypesKeeps | code_generator/src/writer.rs:598-617 | Queueing keeps the state settled and leaves the final text unchanged. The delayed text and the record gain the input, then the output, then the fault. Each is added only when it is not recorded yet and is not one of the aliases queued before it |
| Properties.QueueTwoKeeps | code_generator/src/writer.rs:601-609 | The input alias is added when unrecorded. The output alias is added when unrecorded and different from the input. Both go to the delayed text and the record |
| Properties.FaultKeeps | code_generator/src/writer.rs:611-616 | The fault alias is recorded and then queued: the record and the delayed text each gain it once, and the final text is unchanged |
| Properties.QueueRecords | code_generator/src/writer.rs:598-617 | After queueing, the input, the output and any fault are recorded, and the earlier record is a prefix |
| Properties.QueueIdempotent | code_generator/src/writer.rs:598-617 | Until a reset, queueing the same aliases a second time changes nothing |
| Properties.QueueAfterReset | code_generator/src/writer.rs:461-463 | After a reset, queueing an alias appends it to the delayed text again, even if it was recorded before |
| Properties.OperationKeeps | code_generator/src/writer.rs:509-596 | A named operation appends its method signature, with the argument and return clause of its templates, to the final text. It queues its message aliases as queueing states. An unnamed operation changes nothing |
| Properties.OperationAppends | code_generator/src/writer.rs:509-596 | One operation, named or not, appends its signature text to the final text and only appends to its section |
| Properties.OperationsKeep | code_generator/src/writer.rs:459-460 | Any prefix of the operations appends exactly one signature per named operation, in document order, to the final text; the state stays settled and the other sections are unchanged |
| Properties.PortTypeCloses | code_generator/src/writer.rs:461-463 | Closing an interface appends the brace and every queued alias, and empties the record |
| Properties.PortTypeKeeps | code_generator/src/writer.rs:450-466 | A named interface appends the `pub trait` opening, one signature per named operation in document order, and the closing brace, then everything ever queued in its section, including earlier interfaces' aliases; it leaves the record empty |
| Properties.BindingOperationKeeps | code_generator/src/writer.rs:646-737 | A named binding operation appends the stub method (signature, `unimplemented!()`, brace) to the final text. It appends the input wrapper and then the output wrapper to the delayed text, and leaves the record unchanged. An unnamed operation changes nothing |
| Properties.BindingOperationAppends | code_generator/src/writer.rs:646-737 | One binding operation, named or not, appends its stub text to the final text and its wrapper text to the delayed text, and keeps the record |
| Properties.BindingOperationsKeep | code_generator/src/writer.rs:488-489 | Any prefix of the binding operations appends their stubs to the final text and their wrappers to the delayed text, each in document order, and keeps the record |
| Properties.BindingCloses | code_generator/src/writer.rs:490-492 | Closing a binding appends the brace, the default constructor and every queued wrapper |
| Properties.BindingKeeps | code_generator/src/writer.rs:468-493 | A binding with a name and a type appends the struct and `impl` opening, one stub per named operation in document order, the closing brace and the `Default` implementation, then every wrapper ever queued in its section; its own wrappers are added to the delayed text in document order |
| Properties.MessageKeeps | code_generator/src/writer.rs:409-429 | A named message appends one struct with no namespace prefix, whose only field comes from its first part |
| Properties.SchemaKeeps | code_generator/src/writer.rs:200-218 | A schema selects the types section and its target namespace; its top-level structs and aliases are appended in document order |
| Properties.SchemaChildKeeps | code_generator/src/writer.rs:207-217 | A top-level schema child appends its whole text and leaves the stack empty |
| Properties.DefinitionChildKeeps | code_generator/src/writer.rs:189-198 | Each WSDL construct keeps every section settled, only appends, and never touches the root section |
| Properties.PrintKeeps | code_generator/src/writer.rs:177-187 | Dispatching a node keeps every section settled and only appends |
| Properties.DocumentSettles | code_generator/src/writer.rs:80-95 | After a whole document every section is settled and only appended to, and the root section holds exactly the preamble |
| EmitterRules.FieldTypeRule | code_generator/src/writer.rs:268-283 | `Vec` wins over `Option`; a nillable element that is not repeated is an `Option`; otherwise the type is the plain resolved type |
| EmitterRules.FieldByPresence | code_generator/src/writer.rs:229-285 | At any level, two typed elements with the same name, type and presence of `maxOccurs` and `nillable` print the same text: the attributes' values never matter |
| EmitterRules.RepeatedIsVec | code_generator/src/writer.rs:234-283 | Below level 0, an element with `maxOccurs` present, whatever its value, adds one field line whose type is `Vec<` of the resolved type, even when nillable |
| EmitterRules.KeywordFieldRenamed | code_generator/src/writer.rs:268-283 | A field whose snake-cased name is `type` is declared as `rs_type` |
| EmitterRules.TopLevelAliasIgnoresOccurs | code_generator/src/writer.rs:246-254 | At level 0 a typed element becomes `pub type` alias, whatever its occurrence attributes |
| EmitterRules.ReturnClause | code_generator/src/writer.rs:531-595 | No return clause without a complete output message; with a complete fault it is a `Result` over output and fault; otherwise it is the output alone; an incomplete input gives no argument |
| EmitterRules.BindingReturnClause | code_generator/src/writer.rs:646-737 | No return clause without a named output; with a named fault it is a `Result` over the `ports` types; otherwise it is the output type alone |
| EmitterRules.BindingArgumentClause | code_generator/src/writer.rs:646-737 | The method argument is empty exactly when the input is not named |

## Left out

- **File and XML I/O.** Reading and parsing files (`process_file`, `process_file_in_path`, `new_file`) becomes a parameter: the parsed document is a `Node` value.
  - `import_file` reads and processes another file, so the model treats it as a no-op.
  - Copying the sections to the output writer with `io::copy` is left out, together with its order, which follows `HashMap` iteration.
- **Logging and panics.** `warn!` and `info!` logging is left out, and so is the `.expect` panic on a failed write to an in-memory buffer. These writes cannot fail.
- **Casing.** The identifier casing of the inflector library (`to_pascal_case`, `to_snake_case`) is a parameter of two total functions. The model states nothing about what they compute.
- **Unused state.** The cursor position of the final text and the `base_path` and destination fields are not modelled. The position only matters when the text is read out.
- **Non-element nodes.** Text, comment and document-root nodes are nodes with tag `""` and no attributes, which is how the XML library reports them.
- Cursors.Cursor.Write: text is modelled as characters, and positions count characters. The source's cursors are `Cursor<Vec<u8>>`, written with the UTF-8 bytes of each string, so their positions count bytes. The two agree on appends. In every state the emitters reach, each delayed cursor sits at the end of its text (`RunStates.Settled`), so every delayed write is an append.
- Cursors.WriteAtStartOverwrites: overwrites the first `|buf|` characters, where the source overwrites the first `|buf|` UTF-8 bytes and can split a multi-byte character. On ASCII text the two are the same.
- FileWriters.FileWriter.DecLevel: requires a level above 0. The source's `usize` subtraction would underflow there, and no emitter lowers the level below where it started.
- EmitterRules.BindingReturnClause: the SOAP wrapper text that a binding method queues is given only by its definition (`Templates.SoapWrapper`). No lemma states its contents.
- **Delayed buffer.** The delayed buffer is never cleared, in the code as written. So every interface re-emits the aliases queued by earlier interfaces in its section, and every binding re-emits earlier wrappers. This model follows the code.
  - Only the record of seen aliases is reset after each interface.
