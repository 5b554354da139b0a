# Kelon's query compiler, modelled and verified

Kelon takes a Rego policy that has been partially evaluated by OPA, compiles what is left of it into
queries of a database, and allows a request when some query finds something. This project models that
compiler in Dafny and proves what it preserves.

    policy body --preprocess--> stripped body --process--> query tree --walk--> visits --stack machine--> SQL / MongoDB

The stages are classes whose methods update fields step by step, as in the program. Each method is proved
against a function that says what it computes, and the theorems are about these functions.

| files | what they model |
|---|---|
| `Preprocessor`, `PreprocessorTheorems` | rewriting of references, inlining of local variables |
| `Processor`, `ProcessorTheorems` | building of the query tree, From and Link |
| `QueryAst`, `Stacks` | the query tree and its visiting order, the stacks with their shared backing array |
| `Templates`, `TemplateReading`, `TemplateTheorems`, `Tokens` | call operands: templates such as `$0 = $1` and their application through fmt |
| `SqlTranslator`, `SqlRefinement`, `SqlStructure`, `SqlOperators`, `SqlPlaceholders`, `SqlPositions`, `SqlMeaning`, `SqlExecutor`, `SqlLookups`, `SqlTexts`, `SqlWords`, `SqlReader`, `SqlReading` | the SQL stack machine, the structure of its text, parameters by number and by position, meaning, the executor's rule, lookups, what the text tells, an independent reader of it |
| `MongoTranslator`, `MongoRefinement`, `MongoMarkers`, `MongoDirect`, `MongoEntities`, `MongoMeaning`, `MongoDecisions`, `MongoPolicy`, `JsonText`, `FilterReader`, `FilterReading` | the MongoDB stack machine, markers and their replacement, meaning, the executor's rule, quoted text, an independent reader of filters |
| `EntityConfig`, `EntityOrder`, `ApiConfig` | schemas, the path index and the order of the crawl, validation |
| `RegoAst`, `RegoMeaning`, `Meaning`, `PolicyMeaning`, `PolicyLimits` | what a body means, independently of the compiler, and what compiling keeps |
| `AstTranslator`, `EndToEnd`, `Decisions`, `SqlDecisions`, `MongoStores`, `FlatPolicies`, `FlatFilters`, `Pipeline` | grouping by datastore, one body on one datastore, the decision over all of them |
| `JsonPointer` | decoding of patch paths (section 4 of RFC 6901) |

## Main results

* **Meaning.** What is kept is the answer to the text the stack machine writes: the statement is parsed and
  run with the machine's values, `$k` standing for the k-th value on Postgres and the k-th `?` on MySQL. On
  every database and for every meaning of constants and operators with which the database reads the
  statement, this answer is the truth of the body if and only if the query can be rendered, its tables are
  stored apart, and the body is *faithful*: nothing is negated, no iterator is shared between tables, each
  local variable is declared with one column under a name that is no iterator, no table disappears by
  inlining, and every table but the first shares an expression with another one
  (`EndToEnd.CompilationKeepsMeaningExactly`). Without any one of these, some database tells body and answer
  apart, already where operators hold of all operands. The hypotheses are that the operators in use have sound
  templates and that on MySQL no call prints parameters out of order. The database may make any tree of the
  text that has the meaning of the printed one. Texts alone do not determine the tree: infix calls print alike
  however they are nested (`SqlTexts.NestedInfixPrintsAlike`), while comparisons of columns and parameters
  have different texts (`SqlTexts.ComparisonTextsDiffer`).
* **Texts.** The generated text is read back by readers that are written from the languages of statements and
  filters and share no function with the translators. Whatever its condition, a SELECT names the tables of From
  and Link in order (`SqlWords.SelectNamesItsTables`); every statement whose conditions compare columns and
  constants, and every filter of comparisons by the shipped kinds of relations, is read as what was printed
  (`SqlReading.StatementIsRead`, `FilterReading.FilterIsRead`). So for such policies nothing is asked of the
  database but to read its text (`FlatPolicies.FlatPoliciesKeepMeaningExactly`,
  `Pipeline.DecisionOfFlatPolicies`).
* **Decisions.** For supported bodies over SQL and MongoDB datastores, what the translator reports is no error,
  and it is allow exactly when some body is true on the data of its datastore, in whatever order datastores,
  collections and schemas are visited (`Pipeline.DecisionMeansPolicies`). That preprocessing, processing and
  translation succeed is derived, not assumed. A single refused query makes the decision an error
  (`AstTranslator.RefusedQueryIsReported`).
* **Stack machines.** Both machines compute a plain recursion over the query tree, on every union of
  queries, in results and in errors. No pop fails and the "too many relations" error is unreachable. The
  stacks of relations and operands are slices on a backing array that Clear does not release.
* **Placeholders.** By number they always stand for their values. By position they do if and only if, in
  every call, the operands that hold parameters are printed once each and in order.
* **Markers.** Rendering MongoDB filters with `{{entity.}}` markers, regrouping them by collection and
  replacing the markers at the end is rendering with the final paths in the first place. It fails exactly
  when an operator does not fit or an entity is not in the tree of the collection.
* **MongoDB meaning.** A filter means its conditions if and only if no two attributes are compared, no
  comparison with the constant first uses an operator that is not symmetric, and no path is compared in two
  different ways. Running the returned texts then tells whether some body is true within some document
  (`MongoStores.MongoAnswersTruly`).
* **Templates.** Compiling and applying a template is simultaneous substitution for all operands if and only
  if the template has no literal `%` and one placeholder per declared argument, all below the argument count.
* **Preprocessing** leaves no variable, whatever the body, and every reference of a body that passes starts
  from an iterator or has the reported datastore and the noted iterator of its table. Bodies of the language pass exactly with one allowed
  datastore and one iterator per table, and can be restored.

## Findings

Properties that the code does not have. Each has its exact condition in the model, for all inputs.

| what happens | source | condition |
|---|---|---|
| fmt reads the `% ` of the shipped template `$0 % $1` as the start of a directive and prints its second operand as a complaint | internal/pkg/data/call-operands/mysql.yml:16-18 | `TemplateTheorems.SubstitutionExactlyWhenSound`, of which `RemainderTemplateMisprints` is an instance; other queries are not affected (`SqlOperators.UnsoundTemplatesDoNotMatter`) |
| the shipped template `$1 * $0` prints its operands in the opposite order, so the `?` of MySQL take each other's values when both operands hold constants | internal/pkg/data/call-operands/mysql.yml:10-12 | `SqlPositions.TreeAlignedExactly`, and `ProductTemplateIsOutOfOrder` for this template |
| negation is dropped, iterators shared between tables and local variables declared twice lose their meaning, all without an error, and a table that shares no expression with another is missing from the statement | internal/pkg/translate/default-preprocessor.go:51-81 | `EndToEnd.CompilationKeepsMeaningExactly` |
| the attribute is put first for every operator with two operands, while the comment speaks of equality only, so `lt`, `gt`, `lte` and `gte` mean the opposite comparison | internal/pkg/data/mongo-datastore-translator.go:287-296 | `MongoMeaning.FilterKeepsMeaningExactly` |
| two conditions on one path become a JSON object with a repeated key, of which the executor keeps the last | internal/pkg/data/mongo-datastore-translator.go:256-265 | `MongoMeaning.FilterKeepsMeaningExactly` |
| an attribute compared with another attribute is compared with the text of its path | internal/pkg/data/mongo-datastore-translator.go:267-276 | `MongoMeaning.FilterKeepsMeaningExactly` |
| text constants are put between quotes as they are, so a quote, a backslash or a control character changes what is read back | internal/pkg/data/mongo-datastore-translator.go:336-342 | `JsonText.QuotedReadsBackExactly` |
| nested calls of infix operators are printed without parentheses, so `minus(a, plus(b, c))` and `plus(minus(a, b), c)` have one text | internal/pkg/data/call-operands/mysql.yml:1-9 | `SqlTexts.NestedInfixNeedsAssociativity`: both can be read with their meaning exactly where the meanings agree |
| a name declared by several schemas stands for a table that depends on the iteration order of a Go map | internal/pkg/data/sql-datastore-translator.go:304-313 | `SqlLookups.OneOutcomeExactly` |

## Model

| member | source | states |
|---|---|---|
| EndToEnd.CompilationKeepsMeaningExactly | internal/pkg/data/sql-datastore-translator.go:157-189 | The answer to the statement written for a body is the truth of the body, on every database and for every meaning with which the statement is read, if and only if the query renders, its tables are stored apart and the body is faithful. |
| EndToEnd.FaithfulKeepsMeaning | internal/pkg/translate/default-processor.go:37-69 | For a faithful body whose query renders and whose tables are stored apart, the text the translator returns is accepted and answered with the truth of the body. |
| EndToEnd.KeptMeaningNeedsFaithfulness | internal/pkg/translate/default-preprocessor.go:51-81 | A statement whose answer agrees with its body on all databases and for all readings comes from a faithful body, renders, and has its tables stored apart. |
| EndToEnd.KeptMeaningNeedsStorage | internal/pkg/data/sql-datastore-translator.go:157-189 | Agreement already on a single database forces the query to render and its tables to be stored apart, as the database rejects the statement otherwise. |
| EndToEnd.FaithfulSelectTells | internal/pkg/data/sql-datastore-translator.go:157-189 | Wherever the query of a faithful body with tables stored apart stands in a union, its structured SELECT is accepted and tells the truth of the body. |
| SqlExecutor.AnswerIsMeaning | internal/pkg/data/sql-datastore-executor.go:98-133 | The translator fails exactly when the union does not render; otherwise the returned text, run with the returned values, is answered with the meaning of the structured SELECTs, which is a rejection when one of them leaves its scope. |
| SqlDecisions.UnionMeans | internal/pkg/data/sql-datastore-translator.go:150-155 | The text of a union is answered with the disjunction of its queries, each reading its own values. |
| Decisions.AcceptedIsCompiled | internal/pkg/translate/default-preprocessor.go:36-81 | An accepted body is preprocessed for its datastore into its compiled form, in which the processor finds nothing to report. |
| Decisions.DecisionIsDisjunction | internal/pkg/translate/default-translator.go:62-121 | Where every datastore answers groups of its queries with the disjunction of their truths, the translator reports the disjunction over all bodies, errors of no stage occurring. |
| SqlDecisions.SqlAnswersTruly | internal/pkg/data/sql-datastore-executor.go:98-133 | An SQL datastore answers every group of queries built from bodies it serves with the disjunction of the bodies' truths, success of the translation included. |
| MongoStores.MongoAnswersTruly | internal/pkg/data/mongo-datastore-executor.go:76-147 | A MongoDB datastore answers every group of queries built from bodies it serves with the disjunction of the bodies' truths within documents, success of the translation included. |
| Pipeline.DecisionMeansPolicies | internal/pkg/translate/default-translator.go:62-121 | For supported bodies over SQL and MongoDB datastores the translator reports no error, and allow exactly when some body is true on the data of its datastore, whatever the order of datastores. |
| Pipeline.DecisionOfFlatPolicies | internal/pkg/translate/default-translator.go:62-121 | For bodies of comparisons the same holds with databases of which nothing is asked but to read the words of their statements and the JSON of their filters. |
| FlatPolicies.FlatPoliciesKeepMeaningExactly | internal/pkg/data/sql-datastore-translator.go:113-148 | For conditions that compare columns and constants, the answer of a database that reads the statement word by word is the truth of the body, on every database, if and only if the query renders, its tables are stored apart and the body is faithful. |
| FlatPolicies.FlatStatementsAreRead | internal/pkg/data/sql-datastore-translator.go:113-302 | A reader that knows nothing of the translator reads every statement over such queries with its meaning. |
| FlatPolicies.FlatBodiesAreUnderstood | internal/pkg/data/sql-datastore-executor.go:98-133 | Such a reader understands all statements over the queries of the bodies, in any grouping and order. |
| FlatFilters.PlainBodiesAreUnderstood | internal/pkg/data/mongo-datastore-executor.go:76-147 | A reader of JSON objects understands all filters over the queries of bodies of comparisons, in any grouping and order. |
| FlatFilters.PlainFilterIsRead | internal/pkg/data/mongo-datastore-translator.go:166-212 | A reader that knows nothing of the translator reads every combined filter of comparisons with its meaning. |
| PolicyMeaning.BodyCorresponds | internal/pkg/translate/default-preprocessor.go:146-170 | Under corresponding assignments and row choices, a body and its inlined clauses hold together. |
| PolicyMeaning.FaithfulKeepsTruth | internal/pkg/translate/default-preprocessor.go:146-170 | Inlining local variables and dropping iterators keeps satisfiability of faithful bodies, both ways. |
| PolicyMeaning.CompiledHasNoErrors | internal/pkg/translate/default-processor.go:190-199 | The processor finds nothing unknown in the compiled form of a body of the language. |
| PolicyLimits.AgreementNeedsFaithfulness | internal/pkg/translate/default-preprocessor.go:84-201 | Agreement on all databases and for all meanings of operators forces absence of negation, unshared iterators, one column per local variable, and that no table is dropped. |
| Preprocessor.AstPreprocessor.Process | internal/pkg/translate/default-preprocessor.go:36-48 | All queries are accepted on their own and their results returned in order, or the error of the first refused query is; no state reaches the next query. |
| Preprocessor.QueriesOneByOne | internal/pkg/translate/default-preprocessor.go:40-47 | Preprocessing succeeds exactly when every single query is accepted. |
| Preprocessor.AstPreprocessor.TransformOne | internal/pkg/translate/default-preprocessor.go:51-81 | One query is transformed from empty maps, expression by expression; declarations leave nothing. |
| Preprocessor.AstPreprocessor.TransformRefs | internal/pkg/translate/default-preprocessor.go:84-144 | All references of a term are rewritten left to right, threading the maps. |
| Preprocessor.AstPreprocessor.SubstituteVars | internal/pkg/translate/default-preprocessor.go:146-170 | A declaration is stored; in any other expression declared variables are replaced and undeclared ones are an error. |
| PreprocessorTheorems.RefusedByFirstCheck | internal/pkg/translate/default-preprocessor.go:84-142 | A reference is refused with the error of the first check it does not pass, and accepted exactly when it passes all of them or starts from an iterator. |
| PreprocessorTheorems.SubstitutedOneByOne | internal/pkg/translate/default-preprocessor.go:146-170 | Operands that are variables are replaced one by one and all others stay, whatever is below them; the first undeclared variable is the error. |
| PreprocessorTheorems.TransformReads | internal/pkg/translate/default-preprocessor.go:51-81 | The result is the reference reading of the body with local variables inlined and datastores and iterators stripped. |
| PreprocessorTheorems.NoVariableIsLeft | internal/pkg/translate/default-preprocessor.go:146-170 | Whatever the body, no operand of a preprocessed expression is a variable. |
| PreprocessorTheorems.PreprocessingSucceedsExactly | internal/pkg/translate/default-preprocessor.go:36-144 | For bodies of the language, success exactly when all columns are of one datastore of the pool, every table has one iterator, and variables are declared before use. |
| PreprocessorTheorems.ReferencesAreNoted | internal/pkg/translate/default-preprocessor.go:84-144 | Whatever the body, if it passes, every reference starts from an iterator or names the one reported datastore, which the pool allows, and a table with the one iterator noted for it. |
| PreprocessorTheorems.RewritingIsReversible | internal/pkg/translate/default-preprocessor.go:84-144 | For bodies of the language, the reported datastore and the noted iterators restore every rewritten reference, so different references stay different. |
| Processor.AstProcessor.Process | internal/pkg/translate/default-processor.go:37-69 | A query is built exactly for bodies with a table and without complaints, from nothing but the body; otherwise the error says why. |
| ProcessorTheorems.UnknownTermsAreReported | internal/pkg/translate/default-processor.go:190-199 | The complaints are those about the variables and composite terms at any depth, twice each, in visiting order; there are none exactly when the body holds no such term. |
| ProcessorTheorems.TranslatableExactly | internal/pkg/translate/default-processor.go:37-69 | A body is accepted exactly when some term of it names a table and a column and, unless unknown terms are skipped, no term at any depth is a variable or composite. |
| ProcessorTheorems.CompositesAreSpliced | internal/pkg/translate/default-processor.go:190-199 | Operands and tables of a composite term are those of the terms it is made of, put in its place. |
| ProcessorTheorems.TablesAreVisited | internal/pkg/translate/default-processor.go:165-175 | Tables are collected in the order in which a translator visits them, so From is the first one visited. |
| Processor.AstProcessor.TranslateQuery | internal/pkg/translate/default-processor.go:104-118 | One clause per expression in order, From the first table, Link the tables of joining expressions, operand stack and entities empty again. |
| Processor.AstProcessor.TranslateExpr | internal/pkg/translate/default-processor.go:120-151 | One more relation with the operands of the terms; the tables are linked when there are two. |
| Processor.AstProcessor.TranslateTerm | internal/pkg/translate/default-processor.go:153-201 | A term adds its operands to the top frame, its tables to the entities, and reports unknown terms twice. |
| Processor.Keys | internal/pkg/translate/default-processor.go:255-263 | The keys of a map, each once, in some order. |
| ProcessorTheorems.TermRoundTrip | internal/pkg/translate/default-processor.go:153-201 | A term becomes one operand that reads back as the term exactly when it consists of scalars, table columns and calls. |
| ProcessorTheorems.BodyRoundTrip | internal/pkg/translate/default-processor.go:120-151 | The clauses read back as the body, call by call, exactly when all terms are of that kind. |
| ProcessorTheorems.SharedTablesExact | internal/pkg/translate/default-processor.go:133-138 | A table is collected for joining exactly when it shares an expression with another table. |
| ProcessorTheorems.FromAndLinkExact | internal/pkg/translate/default-processor.go:37-69 | Link is the tables that share an expression, without From; the condition stays within From and Link exactly when every other table shares an expression. |
| Stacks.Stack.Clear | internal/pkg/util/stacks.go:25-27 | Clearing empties the stack and keeps its backing array. |
| Stacks.Stack.Push | internal/pkg/util/stacks.go:30-33 | The value comes on top; the array is written in place while there is capacity and replaced otherwise. |
| Stacks.Stack.Pop | internal/pkg/util/stacks.go:37-48 | Removes and returns the top, or reports the empty stack. |
| Stacks.Stack.Peek | internal/pkg/util/stacks.go:52-61 | Returns the top and changes nothing. |
| Stacks.Stack.Values | internal/pkg/util/stacks.go:64-66 | A view that shares the backing array and reads as the contents. |
| Stacks.AppendToTop | internal/pkg/util/stacks.go:69-79 | The value joins the top frame and all other frames stay; without a frame nothing changes. |
| Templates.LoadedCallHandler.Init | internal/pkg/data/operands.go:73-90 | Succeeds exactly when all placeholder numbers fit an int, and then holds index list and format of the template. |
| TemplateReading.PiecesExactly | internal/pkg/data/operands.go:73-90 | A template is read in one way: its placeholders start as early and reach as far as they can, and together with the rest they spell it. |
| TemplateReading.DecimalByFirstDigit | internal/pkg/data/operands.go:79-84 | The number of a placeholder is the decimal value of its digits. |
| Templates.LoadedCallHandler.Map | internal/pkg/data/operands.go:92-115 | Checks the operand count, rearranges the operands and formats them, with an appended comparison for one operand too many. |
| SqlTexts.InfixIsWritten | internal/pkg/data/operands.go:92-115 | An infix template writes its operands around its symbol, and compares the call with one operand too many. |
| TemplateTheorems.SubstitutionExactlyWhenSound | internal/pkg/data/operands.go:73-115 | For every template, Init and Map are simultaneous substitution on all operand lists if and only if it has no literal percent sign and one placeholder per argument, all in range. |
| TemplateTheorems.WellFormedSubstitutes | internal/pkg/data/operands.go:92-115 | Sound templates are applied in one pass that never looks at inserted text again. |
| TemplateTheorems.IllFormedMisprints | internal/pkg/data/operands.go:92-115 | Any other template misprints its call on operands that are all "x". |
| TemplateTheorems.SprintfAccounts | internal/pkg/data/operands.go:108-114 | For operands that are all "x", where fmt has not complained, percent signs and letters `s` of the format and of the output account for exactly one directive per operand. |
| TemplateTheorems.RemainderTemplateMisprints | internal/pkg/data/call-operands/mysql.yml:16-18 | What the shipped remainder template prints, for any operands, instead of their remainder. |
| TemplateTheorems.ComposeNatural | internal/pkg/data/operands.go:92-115 | Applying a sound template commutes with filling gaps in its operands. |
| SqlTranslator.Translator.Translate | internal/pkg/data/sql-datastore-translator.go:113-148 | Statement and parameters are those of some run of the visits from the initial state in which an entity may stand for any of its declarations, and of the only run where every name means one table; the first error is returned. |
| SqlWords.SelectNamesItsTables | internal/pkg/data/sql-datastore-translator.go:157-198 | For names without space and comma, what stands between FROM and the condition of a SELECT are the tables of From and Link, in order, and the rest is the condition. |
| SqlWords.TableIsRead | internal/pkg/data/sql-datastore-translator.go:284-297 | The text of a table tells its schema and its name; the schema is left out exactly for `public` on Postgres. |
| SqlReading.PlaceholderIsRead | internal/pkg/data/sql-datastore-translator.go:299-302 | The k-th placeholder is a dollar sign and digits of value k on Postgres, and a question mark on MySQL. |
| SqlReading.StatementIsRead | internal/pkg/data/sql-datastore-translator.go:113-302 | The words of a statement of comparisons are read as its SELECTs: tables, columns, symbols, parameters, in order. |
| SqlTranslator.Translator.VisitedConjunction | internal/pkg/data/sql-datastore-translator.go:214-223 | The relations, read from the backing array after Clear, are replaced by their conjunction. |
| SqlLookups.OneOutcomeExactly | internal/pkg/data/sql-datastore-translator.go:304-313 | The outcome never depends on the iteration order of the schemas if and only if all declarations of a name are stored in one table. |
| SqlLookups.EntityIsItsTable | internal/pkg/data/sql-datastore-translator.go:284-313 | An entity is known exactly when a root goes by its name, and stands for the schema and the own name of the first such root. |
| SqlRefinement.OperandRefines | internal/pkg/data/sql-datastore-translator.go:235-302 | Inside a call, visiting a tree of any depth appends its recursive rendering to the top frame and leaves all else but the parameters. |
| SqlRefinement.CallRuns | internal/pkg/data/sql-datastore-translator.go:244-277 | From an empty operand stack a call leaves its rendering as one relation. |
| SqlRefinement.QueryRefines | internal/pkg/data/sql-datastore-translator.go:157-189 | A query adds one SELECT that depends on itself and the number of earlier parameters only, and leaves the working stacks empty. |
| SqlRefinement.MachineRefinesRendering | internal/pkg/data/sql-datastore-translator.go:113-302 | The machine equals the recursive rendering on every union; no pop fails and no relation is left over. |
| SqlStructure.RenderIsPrint | internal/pkg/data/sql-datastore-translator.go:235-302 | A tree whose operators have sound templates renders exactly when entities are known and operators fit, as the printed form of a structured expression. |
| SqlStructure.StatementIsPrintedStructure | internal/pkg/data/sql-datastore-translator.go:113-148 | The statement is the printed union of structured SELECTs and its values are the constants in visiting order. |
| SqlTexts.NestedInfixPrintsAlike | internal/pkg/data/call-operands/mysql.yml:1-9 | Calls of infix operators have one text however they are nested. |
| SqlTexts.NestedInfixNeedsAssociativity | internal/pkg/data/call-operands/mysql.yml:1-9 | Some database reads both nestings with their meaning if and only if the two meanings agree on all databases and values. |
| SqlTexts.ComparisonTextsDiffer | internal/pkg/data/sql-datastore-translator.go:225-302 | Comparisons of columns and parameters by infix operators have the same text only if symbol and operands are the same, up to the numbers MySQL's placeholders do not carry. |
| SqlOperators.UnsoundTemplatesDoNotMatter | internal/pkg/data/operands.go:119-153 | A union is translated as if the unsound templates it does not use were absent. |
| SqlPlaceholders.NumberedPlaceholdersAligned | internal/pkg/data/sql-datastore-translator.go:299-302 | Over a whole union, writing the k-th value for the placeholder k gives the statement with its constants in place. |
| SqlPositions.PickedFillExactly | internal/pkg/data/operands.go:100-107 | Rearranged operands print consecutive placeholders exactly when each does and those that hold any are picked once and in order. |
| SqlPositions.TreeAlignedExactly | internal/pkg/data/sql-datastore-translator.go:244-302 | The i-th placeholder of a tree stands for its i-th constant if and only if each of its calls prints the operands that hold constants once and in order. |
| SqlPositions.PositionalStatementAligned | internal/pkg/data/sql-datastore-translator.go:113-148 | The i-th placeholder of a whole statement stands for the i-th value if and only if this holds for all trees of its queries. |
| SqlPositions.PositionalPlaceholdersAlignedExactly | internal/pkg/data/sql-datastore-translator.go:299-302 | All trees that can be printed are aligned if and only if every sound template prints its operands once and in order. |
| SqlPositions.ProductTemplateIsOutOfOrder | internal/pkg/data/call-operands/mysql.yml:10-12 | The shipped product template is sound but out of order, and keeps the order exactly when at most one operand holds constants. |
| SqlMeaning.WellScopedExactly | internal/pkg/data/sql-datastore-translator.go:157-198 | A structured SELECT is accepted by the database exactly when From and Link are stored in different tables and its condition uses no others. |
| SqlMeaning.SelectMeansQuery | internal/pkg/data/sql-datastore-translator.go:157-198 | Where entities are stored in different tables, the structured SELECT of a query counts rows exactly when some choice of one row per table satisfies all its clauses. |
| SqlMeaning.SharedStorageIsRejected | internal/pkg/data/sql-datastore-translator.go:157-198 | If two of From and Link are stored in one table, the SELECT is rejected on every database. |
| MongoTranslator.Translator.Translate | internal/pkg/data/mongo-datastore-translator.go:131-164 | The filters are those of running the visits and finishing the union in some order of collections; the first error is returned. |
| FilterReader.ConstantIsWritten | internal/pkg/data/mongo-datastore-translator.go:336-342 | A number is written as it is; a text is written between quotes and read back as itself exactly when it needs no escape. |
| FilterReading.FilterIsRead | internal/pkg/data/mongo-datastore-translator.go:166-203 | A combined filter is read as the objects it was made from: paths, relations and constants, in order. |
| MongoTranslator.Translator.VisitedUnion | internal/pkg/data/mongo-datastore-translator.go:166-212 | Filters are grouped by collection, combined and finished, for any iteration order of the maps. |
| MongoTranslator.Translator.VisitedConjunction | internal/pkg/data/mongo-datastore-translator.go:256-265 | The relations, read from the backing array after Clear, are replaced by one object. |
| MongoRefinement.OperandRefines | internal/pkg/data/mongo-datastore-translator.go:267-342 | Inside a call, visiting a tree of any depth appends its recursive rendering to the top frame. |
| MongoRefinement.QueryRefines | internal/pkg/data/mongo-datastore-translator.go:214-243 | A query adds one filter for its collection and leaves the working stacks empty. |
| MongoRefinement.MachineRefinesRendering | internal/pkg/data/mongo-datastore-translator.go:131-342 | The machine equals the recursive rendering on every union; no pop fails and no relation is left over. |
| MongoRefinement.RegroupKeepsFilters | internal/pkg/data/mongo-datastore-translator.go:166-178 | Every filter is kept once, in order, in the group of its collection, and there are no other groups. |
| MongoMarkers.MarkerMatches | internal/pkg/data/mongo-datastore-translator.go:106-106 | The regular expression reads a marker back, entity and all. |
| MongoMarkers.CloseAtExactly | internal/pkg/data/mongo-datastore-translator.go:106-106 | On any text, the shortest match ends with the first pair of closing braces that no line break precedes. |
| MongoMarkers.ReplaceIsResolve | internal/pkg/data/mongo-datastore-translator.go:183-203 | Replacing all matches replaces the markers and nothing else. |
| MongoMarkers.MatchesIffMarked | internal/pkg/data/mongo-datastore-translator.go:290-295 | The test for an entity in an operand sees exactly the markers. |
| MongoDirect.OperandIsMarked | internal/pkg/data/mongo-datastore-translator.go:267-324 | Rendering succeeds exactly when all operators fit, and yields the operand's text with markers for its entities. |
| MongoDirect.DirectIsFill | internal/pkg/data/mongo-datastore-translator.go:183-203 | Rendering with paths in the first place is filling the markers with them. |
| MongoDirect.TranslationIsDirect | internal/pkg/data/mongo-datastore-translator.go:131-212 | The returned filters are those rendered with paths directly, grouped by collection; failure exactly when an operator does not fit or an entity has no path. |
| MongoEntities.ReachesExactly | internal/pkg/data/mongo-datastore-translator.go:187-199 | Where templates use all operands, a filter can be finished exactly when every entity of its query has a path below the collection. |
| MongoEntities.PrefixFollowsTheTree | configs/datastore.go:56-87 | Nothing is put in front of an attribute of the collection itself; in front of others the names from below the collection to their entity are. |
| MongoEntities.ReachesWithinTheTree | internal/pkg/data/mongo-datastore-translator.go:74-80 | With the merged index of all schemas, exactly the queries whose entities occur in the collection's tree can be finished. |
| MongoMeaning.FilterIsPrintedFields | internal/pkg/data/mongo-datastore-translator.go:256-324 | A filter of comparisons is the printed list of its fields, each with an attribute as key. |
| MongoMeaning.FilterKeepsMeaningExactly | internal/pkg/data/mongo-datastore-translator.go:285-296 | A filter means its comparisons if and only if no two attributes are compared, only symmetric operators have the constant first, and no path is compared in two ways. |
| MongoDecisions.RegroupingKeepsMatches | internal/pkg/data/mongo-datastore-translator.go:166-211 | For any comparisons, some collection's combined filter matches a document exactly when some query's own object matches one. |
| MongoDecisions.RegroupingKeepsDecision | internal/pkg/data/mongo-datastore-translator.go:166-211 | Where every filter means its comparisons, some combined filter matches a document exactly when some query is satisfied by one. |
| MongoDecisions.TranslationKeepsDecision | internal/pkg/data/mongo-datastore-executor.go:76-147 | Comparisons of entities with paths are translated, and reading and running the returned texts tells whether some document satisfies the comparisons of some query. |
| MongoDecisions.ComparisonsAreTranslated | internal/pkg/data/mongo-datastore-translator.go:131-212 | The translation of comparisons whose entities have paths always succeeds, with the filters rendered directly. |
| JsonText.QuotedReadsBackExactly | internal/pkg/data/mongo-datastore-translator.go:336-342 | A constant put between quotes is read back as itself exactly when it holds no quote, backslash or control character. |
| MongoPolicy.BodyIsClauses | internal/pkg/translate/default-preprocessor.go:146-170 | A body read within one document is true in some document exactly when its clauses hold in some document. |
| MongoPolicy.QueryMeansBody | internal/pkg/data/mongo-datastore-executor.go:76-147 | The query of a compiled body is satisfied in a collection exactly when the body is true within one of its documents. |
| AstTranslator.Translator.Process | internal/pkg/translate/default-translator.go:62-121 | Errors of preprocessing and processing come before any datastore is asked; otherwise the queries are partitioned and the answers folded. |
| AstTranslator.RefusedQueryIsReported | internal/pkg/translate/default-translator.go:67-83 | A single query that the preprocessor or the processor refuses makes the decision the error of the first such query, and datastores are asked only when every query passes. |
| AstTranslator.GroupsKeepOrder | internal/pkg/translate/default-translator.go:85-95 | The group of a datastore holds the queries at its places, all of them, in their original order. |
| AstTranslator.Translator.GroupByDatastore | internal/pkg/translate/default-translator.go:72-96 | Every query lands in the union of its datastore, in the original order, and nowhere else. |
| AstTranslator.Translator.ExecuteAll | internal/pkg/translate/default-translator.go:98-120 | For any order: no only after all said no, yes only when one said yes, an error only the one of a datastore that failed or is missing. |
| AstTranslator.FoldIsDisjunction | internal/pkg/translate/default-translator.go:98-120 | No means that every datastore is configured and said no, yes that one said yes, an unknown datastore is one that is missing; without failing datastores the answer is the disjunction, whatever the order. |
| EntityConfig.ContainsEntity | configs/datastore.go:34-43 | The first root entity whose alias is searched, or whose name is and which has no alias; none exactly when there is no such root. |
| EntityConfig.FindSchemaForEntity | internal/pkg/data/sql-datastore-translator.go:304-313 | Finds the first root of that alias or name in a schema that has one, none exactly when no schema does, and always the same schema when names are unambiguous. |
| EntityConfig.PathIndex.GenerateEntityPaths | configs/datastore.go:58-64 | The index holds the preorder listing of every root, later entries replacing earlier ones. |
| EntityConfig.PathIndex.Crawl | configs/datastore.go:66-87 | One subtree is entered under its root with the history of names; siblings do not alter stored paths. |
| EntityConfig.PathIndexAgreesWithTree | configs/datastore.go:56-87 | The keys of a root are the mapped names of its tree; the stored path leads to the last such entity in preorder. |
| EntityOrder.IndexHoldsLast | configs/datastore.go:58-87 | For any roots, the index has an entry exactly for names of entities below roots, and holds the way to the last such entity, where entities are ordered by address, parents before children and earlier siblings before later ones. |
| EntityConfig.UniqueNameHasItsPath | configs/datastore.go:56-87 | A name on one path only is indexed with that path. |
| EntityConfig.MergePaths | internal/pkg/data/mongo-datastore-translator.go:74-80 | The index of a datastore takes the entry of every root from one of the schemas that have it. |
| EntityConfig.MergingKeepsIndexes | internal/pkg/data/mongo-datastore-translator.go:74-80 | Where no name is declared by two schemas, merging keeps every root's entry, in whatever order. |
| ApiConfig.FindEntityAmbiguity | configs/api.go:84-105 | Accepts exactly trees whose siblings go by different aliases or names at every level. |
| ApiConfig.SiblingsDistinctExactly | configs/api.go:84-105 | Siblings are distinct on every level exactly when every list of names leads to one entity below the root at most. |
| EntityConfig.CollidingNames | configs/datastore.go:89-94 | Two entities are mapped to one name exactly when their aliases, or names where there is no alias, coincide. |
| ApiConfig.Validate | configs/api.go:37-71 | Succeeds exactly on consistent configurations, for any order of schemas. |
| ApiConfig.ConsistentExactly | configs/api.go:37-71 | A mapping is valid exactly when its datastores are configured, every name belongs to one root at most, and below every root a list of names leads to one entity at most. |
| ApiConfig.ValidationMakesLookupDeterministic | configs/api.go:37-71 | After validation an entity is declared by one schema only and roots are distinct, so lookups do not depend on map order. |
| ApiConfig.ValidationMakesNamesUnique | configs/api.go:37-71 | After validation a name belongs to one root of one schema of one datastore, and below it a list of names leads to one entity at most. |
| JsonPointer.DecodeSegments | internal/pkg/api/rest-handler.go:607-633 | Every segment is replaced by its decoded form. |
| JsonPointer.TwoPassIsDecode | internal/pkg/api/rest-handler.go:629-630 | The two replacements are one left-to-right decode as in section 4 of RFC 6901, on every string. |
| JsonPointer.DecodingInvertsEscaping | internal/pkg/api/rest-handler.go:607-633 | Decoding inverts the escaping of section 3 of RFC 6901 on every token, and escaping inverts decoding exactly on escaped tokens. |

## Left out

- Connections, HTTP, gRPC, Envoy, telemetry, YAML loading and URL mapping: input and output. Of the executors the rule is modelled: the text is parsed and run, and a count above zero means yes (`SqlExecutor.Answer`, `MongoDecisions.RunFilters`).
- OPA's partial evaluation, its AST library and `with` modifiers: bodies are the input; a bare term instead of a call as expression is not modelled.
- Full grammars of SQL and JSON: in general a parser is an arbitrary function, of which the end-to-end results ask that it reads the statements in question with the meaning they were printed with; the readers of `SqlReader` and `FilterReader` cover flat comparisons, for which nothing is asked. The SQL templates add no parentheses, so a database may read nested infix calls differently; such statements do not meet the hypothesis.
- EndToEnd.CompilationKeepsMeaningExactly: a table that is neither in From nor in Link must not share its storage with another table of the body, since a column of it could then be taken for a column of the other.
- Empty datastore names: the pool of allowed datastores is assumed not to hold the empty name, which the preprocessor uses as "none yet".
- MongoStores.MongoAnswersTruly: a body is read within one document, all iterators standing for the same one, because nested entities are parts of the document of their collection.
- Body language: variables below a direct operand, references other than full columns and bound iterators, and iterators used before they are bound are not given a meaning; what the code does with them is modelled in `Preprocessor` and `Processor`.
- Floating-point and quoting rules of `makeConstant`, `unquote` and `normalizeString`: constants are given as text and the meaning of SQL constants depends on that text only, as it does for parameters.
- SqlTranslator.Translator.Translate: the relations and operands are `Stacks.Stack` objects with their backing arrays; the stacks that are never read after Clear (query, selects, entities, joins) are sequences, as are the stacks of the processor.
- Storage of ambiguous names: from `SqlRefinement` on, the statement is the one of the run with a fixed lookup, which is the only run where every name means one table; validation guarantees this.
- Comprehensions: the expressions of their bodies, which the processor would visit like any others, are not part of the model; null, arrays, objects and sets are. Escapes of surrogate pairs in JSON strings are read as replacement characters.
- `walkDisjunction`: no disjunction is ever built by the processor.
- Templates.LoadedCallHandler.Map: fmt directives other than `%s`, `%%` and flags, which only templates with a literal percent sign can contain, are reported as not modelled and count as misprints; indexing beyond the operands, a panic in the program, is an error value.
- Processor.AstProcessor.Process: a body without a table, on which the program dereferences a nil pointer, is the error `NoEntity`.
- ApiConfig.Validate: error texts are reduced to success or failure.
- Dotted operator names and the quoting of table names: names are plain text.
- MongoMarkers.ReplaceIsResolve: after an unknown entity the program goes on replacing before it reports the error; the model stops at the first one.
- MongoMeaning.FilterKeepsMeaningExactly: conditions are comparisons of an attribute with a constant or an attribute; comparisons of two constants are evaluated by OPA before, and calls nested in a comparison have no shipped template. Documents have one value per path; MongoDB's matching of array elements is not modelled, and neither is a query without conditions, whose filter is not a JSON object.
- MongoDirect.TranslationIsDirect: entities must not contain `}}` or a line break, and names, constants and template texts no `{{`; otherwise the regular expression may match something that is no marker.
- SQL's UNION removes duplicate counts, which does not change whether one is above zero; the union is modelled as the list of its counts.
- Cyclic entity graphs, which YAML anchors would allow: entity trees are finite values.
